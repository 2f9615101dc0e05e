/**
 * The nearest-sample downsampler for captured audio. The fractional source position is
 * carried from one block to the next. Positions are reals.
 */
module Resample {
  import opened Wrappers

  type Ratio = r: real | r > 0.0 witness 1.0

  /** Where sample k is taken, in source samples from the start. */
  ghost function Position(k: nat, ratio: Ratio): (p: real)
    ensures p >= 0.0
  {
    k as real * ratio
  }

  lemma NextPosition(k: nat, ratio: Ratio)
    ensures Position(k + 1, ratio) == Position(k, ratio) + ratio
  {
    assert (k + 1) as real * ratio == k as real * ratio + ratio;
  }

  /** How many output samples n source samples give: n / ratio, rounded up. */
  ghost function Count(n: nat, ratio: Ratio): (c: nat)
    ensures c as real >= n as real / ratio && (c as real) < n as real / ratio + 1.0
    ensures forall k: nat :: k < c <==> Position(k, ratio) < n as real
  {
    var q := n as real / ratio;
    assert q * ratio == n as real;
    assert q >= 0.0 by { if q < 0.0 { Scale(q, 0.0, ratio); } }
    var c: nat := if q == q.Floor as real then q.Floor else q.Floor + 1;
    assert (c as real) - 1.0 < q <= c as real;
    forall k: nat ensures k < c <==> Position(k, ratio) < n as real { BelowCount(k, c, q, n, ratio); }
    c
  }

  lemma BelowCount(k: nat, c: nat, q: real, n: nat, ratio: Ratio)
    requires (c as real) - 1.0 < q <= c as real && q * ratio == n as real
    ensures k < c <==> Position(k, ratio) < n as real
  {
    Scale(k as real, q, ratio);
    assert k < c <==> k as real <= c as real - 1.0;
  }

  lemma Scale(a: real, b: real, ratio: Ratio)
    ensures a < b <==> a * ratio < b * ratio
  {
    assert (b - a) * ratio == b * ratio - a * ratio;
    if a < b { assert (b - a) * ratio > 0.0; }
    if b < a { assert (a - b) * ratio > 0.0; assert (a - b) * ratio == a * ratio - b * ratio; }
  }

  /** The output: sample k is the source sample at k * ratio, rounded down. */
  ghost function Samples(source: seq<real>, ratio: Ratio): (s: seq<real>)
    ensures |s| == Count(|source|, ratio)
  {
    seq(Count(|source|, ratio), k requires 0 <= k < Count(|source|, ratio) => SampleAt(source, ratio, k))
  }

  ghost function SampleAt(source: seq<real>, ratio: Ratio, k: nat): real
    requires k < Count(|source|, ratio)
  {
    source[Position(k, ratio).Floor]
  }

  /** More source never changes the samples already taken. */
  lemma SamplesGrow(source: seq<real>, more: seq<real>, ratio: Ratio)
    ensures Count(|source|, ratio) <= Count(|source + more|, ratio)
    ensures Samples(source + more, ratio)[..Count(|source|, ratio)] == Samples(source, ratio)
  {
    var c, all := Count(|source|, ratio), source + more;
    forall k: nat | k < c ensures k < Count(|all|, ratio) && SampleAt(all, ratio, k) == SampleAt(source, ratio, k) {
      assert Position(k, ratio) < |source| as real;
    }
    if c > 0 { assert Position(c - 1, ratio) < |source| as real; }
  }

  /** A sample as a 16-bit value, clipped at full scale and rounded to the nearest. */
  function Quantise(sample: real): (v: int)
    ensures -32767 <= v <= 32767
    ensures -1.0 <= sample <= 1.0 ==> -0.5 <= sample * 32767.0 - v as real <= 0.5
  {
    var s := if sample > 1.0 then 1.0 else if sample < -1.0 then -1.0 else sample;
    (s * 32767.0 + 0.5).Floor
  }

  function Pcm(samples: seq<real>): seq<int> {
    seq(|samples|, i requires 0 <= i < |samples| => Quantise(samples[i]))
  }

  /** Where chunk i begins. */
  ghost function Start(chunk: nat, i: nat): nat {
    chunk * i
  }

  lemma NextStart(chunk: nat, i: nat)
    ensures Start(chunk, i + 1) == Start(chunk, i) + chunk
  {
  }

  lemma {:induction false} LaterStart(chunk: nat, i: nat, j: nat)
    requires i < j
    ensures Start(chunk, i) + chunk <= Start(chunk, j)
    decreases j
  {
    NextStart(chunk, j - 1);
    if i < j - 1 { LaterStart(chunk, i, j - 1); }
  }

  /** Every completed chunk of the samples, quantised. */
  ghost predicate ChunksOf(sent: seq<seq<int>>, samples: seq<real>, chunk: nat) {
    && Start(chunk, |sent|) <= |samples|
    && forall i | 0 <= i < |sent| :: ChunkAt(sent[i], samples, chunk, i)
  }

  ghost predicate ChunkAt(pcm: seq<int>, samples: seq<real>, chunk: nat, i: nat) {
    Start(chunk, i) + chunk <= |samples| && pcm == Pcm(samples[Start(chunk, i)..Start(chunk, i) + chunk])
  }

  lemma ChunksKeep(sent: seq<seq<int>>, samples: seq<real>, more: seq<real>, chunk: nat)
    requires ChunksOf(sent, samples, chunk) && |samples| <= |more| && more[..|samples|] == samples
    ensures ChunksOf(sent, more, chunk) && Start(chunk, |sent|) <= |samples|
  {
    hide Start;
    forall i | 0 <= i < |sent| ensures ChunkAt(sent[i], more, chunk, i) {
      assert ChunkAt(sent[i], samples, chunk, i);
      var a := Start(chunk, i);
      assert more[..|samples|][a..a + chunk] == more[a..a + chunk];
    }
  }

  lemma OneMoreChunk(sent: seq<seq<int>>, samples: seq<real>, chunk: nat, pcm: seq<int>)
    requires ChunksOf(sent, samples, chunk) && ChunkAt(pcm, samples, chunk, |sent|)
    ensures ChunksOf(sent + [pcm], samples, chunk)
  {
    NextStart(chunk, |sent|);
  }

  class Resampler {
    const ratio: Ratio
    const chunk: nat
    /** Samples not yet sent, and the position of the next one in the next block. */
    var acc: seq<real>
    var pos: real
    /** All source samples so far, and all chunks returned for them. */
    ghost var heard: seq<real>
    ghost var sent: seq<seq<int>>

    constructor (ratio: Ratio, chunk: nat)
      requires chunk >= 1
      ensures Valid() && heard == [] && sent == [] && this.ratio == ratio && this.chunk == chunk
    {
      this.ratio, this.chunk := ratio, chunk;
      acc, pos, heard, sent := [], 0.0, [], [];
      new;
      assert Position(0, ratio) == 0.0;
    }

    /** The chunks sent and the samples kept are what the source gives, and less than a chunk is kept. */
    ghost predicate Valid()
      reads this
    {
      var samples := Samples(heard, ratio);
      && chunk >= 1
      && pos == Position(|samples|, ratio) - |heard| as real
      && ChunksOf(sent, samples, chunk)
      && acc == samples[Start(chunk, |sent|)..]
      && |acc| < chunk
    }

    /** Feed a source block; returns every chunk completed by it. */
    method Push(input: seq<real>) returns (out: seq<seq<int>>)
      requires Valid()
      modifies this
      ensures Valid() && heard == old(heard) + input && sent == old(sent) + out
      ensures forall i | 0 <= i < |out| :: |out[i]| == chunk
    {
      hide Samples, ChunksOf, Start, Position, Pcm;
      ghost var samples := Samples(heard + input, ratio);
      ghost var before: nat, n: nat := |heard|, Count(|heard|, ratio);
      SamplesGrow(heard, input, ratio);
      ChunksKeep(sent, Samples(heard, ratio), samples, chunk);
      ghost var base: nat := Start(chunk, |sent|);
      heard := heard + input;
      while pos < |input| as real
        invariant heard == old(heard) + input && sent == old(sent)
        invariant base <= n <= |samples| && acc == samples[base..n]
        invariant pos == Position(n, ratio) - before as real && pos >= 0.0
        decreases |samples| - n
      {
        NextSample(heard, before, input, ratio, n, pos);
        acc := acc + [input[pos.Floor]];
        pos := pos + ratio;
        NextPosition(n, ratio);
        n := n + 1;
      }
      pos := pos - |input| as real;
      assert n == |samples|;
      acc, out := Chunks(samples);
    }

    /** Every full chunk of what is kept, quantised, oldest first. */
    method Chunks(ghost samples: seq<real>) returns (rest: seq<real>, out: seq<seq<int>>)
      requires chunk >= 1 && ChunksOf(sent, samples, chunk) && acc == samples[Start(chunk, |sent|)..]
      modifies this`sent
      ensures ChunksOf(sent, samples, chunk) && rest == samples[Start(chunk, |sent|)..] && |rest| < chunk
      ensures sent == old(sent) + out && forall i | 0 <= i < |out| :: |out[i]| == chunk
    {
      rest, out := acc, [];
      while |rest| >= chunk
        invariant ChunksOf(sent, samples, chunk) && rest == samples[Start(chunk, |sent|)..]
        invariant sent == old(sent) + out && forall i | 0 <= i < |out| :: |out[i]| == chunk
        decreases |rest|
      {
        NextStart(chunk, |sent|);
        assert rest[..chunk] == samples[Start(chunk, |sent|)..Start(chunk, |sent|) + chunk];
        assert rest[chunk..] == samples[Start(chunk, |sent| + 1)..];
        var pcm := Pcm(rest[..chunk]);
        OneMoreChunk(sent, samples, chunk, pcm);
        rest := rest[chunk..];
        sent := sent + [pcm];
        out := out + [pcm];
      }
    }

    /** However the source is cut into blocks, the same chunks come out. */
    method PushAll(blocks: seq<seq<real>>) returns (out: seq<seq<int>>)
      requires Valid() && heard == [] && sent == []
      modifies this
      ensures Valid() && heard == Joined(blocks) && sent == out
    {
      out := [];
      for n := 0 to |blocks|
        invariant Valid() && heard == Joined(blocks[..n]) && sent == out
      {
        assert blocks[..n + 1][..n] == blocks[..n];
        var more := Push(blocks[n]);
        out := out + more;
      }
      assert blocks[..|blocks|] == blocks;
    }
  }

  /** The next sample is due in this block, at the carried position. */
  lemma NextSample(source: seq<real>, before: nat, input: seq<real>, ratio: Ratio, n: nat, pos: real)
    requires before + |input| == |source| && source[before..] == input
    requires pos == Position(n, ratio) - before as real && 0.0 <= pos < |input| as real
    ensures n < Count(|source|, ratio) && 0 <= pos.Floor < |input|
    ensures Samples(source, ratio)[n] == input[pos.Floor]
  {
    assert Position(n, ratio) < |source| as real;
    assert Position(n, ratio).Floor == before + pos.Floor;
    assert SampleAt(source, ratio, n) == source[before + pos.Floor];
  }

  /** A state that holds what one source gave is the state that any other cutting of it leaves. */
  lemma CuttingMakesNoDifference(samples: seq<real>, sent: seq<seq<int>>, other: seq<seq<int>>, chunk: nat)
    requires chunk >= 1
    requires ChunksOf(sent, samples, chunk) && |samples| < Start(chunk, |sent|) + chunk
    requires ChunksOf(other, samples, chunk) && |samples| < Start(chunk, |other|) + chunk
    ensures sent == other
  {
    if |sent| < |other| { LaterStart(chunk, |sent|, |other|); }
    if |other| < |sent| { LaterStart(chunk, |other|, |sent|); }
    forall i | 0 <= i < |sent| ensures sent[i] == other[i] {
      assert ChunkAt(sent[i], samples, chunk, i) && ChunkAt(other[i], samples, chunk, i);
    }
  }
}
