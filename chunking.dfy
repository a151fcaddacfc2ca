/**
 * How `feedforward` walks a mini-batch. The batch of `miniBatchSize` samples
 * is split into `nrChunk` chunks of `miniBatchSize / nrChunk` samples
 * (integer division), and sample `m` of chunk `j` is the batch sample
 * `j * chunkSize + m`. For every layer transition, in increasing order, every
 * (chunk, sample) pair is visited once; the work done per visit (a dot
 * product, a bias and a sigmoid) is not modelled here.
 */
module Chunking {

  /** One unit of forward-pass work: fill layer `layer + 1` of batch sample `sample`. */
  datatype Step = Step(layer: int, sample: int)

  /** Lexicographic order on steps: earlier layer first, then lower sample. */
  predicate Precedes(a: Step, b: Step)
  {
    a.layer < b.layer || (a.layer == b.layer && a.sample < b.sample)
  }

  /** `chunk_size` of `feedforward`. */
  function ChunkSize(miniBatchSize: nat, nrChunk: nat): nat
    requires nrChunk > 0
  {
    miniBatchSize / nrChunk
  }

  /** The batch index that chunk `j`, position `m` addresses. */
  function SampleIndex(j: int, m: int, chunkSize: int): int
  {
    j * chunkSize + m
  }

  /** How many samples of the batch the chunks reach, per layer. */
  function Covered(miniBatchSize: nat, nrChunk: nat): nat
    requires nrChunk > 0
  {
    nrChunk * ChunkSize(miniBatchSize, nrChunk)
  }

  /** Multiplying by a non-negative factor keeps the order. */
  lemma MulMonotone(a: int, b: int, c: nat)
    requires a <= b
    ensures a * c <= b * c
  {
    assert b * c - a * c == (b - a) * c;
  }

  /** Every index a chunk addresses lies inside the batch (below the covered prefix). */
  lemma SampleIndexInBatch(miniBatchSize: nat, nrChunk: nat, j: int, m: int)
    requires nrChunk > 0
    requires 0 <= j < nrChunk && 0 <= m < ChunkSize(miniBatchSize, nrChunk)
    ensures 0 <= SampleIndex(j, m, ChunkSize(miniBatchSize, nrChunk)) < Covered(miniBatchSize, nrChunk)
    ensures Covered(miniBatchSize, nrChunk) <= miniBatchSize
  {
    var cs := ChunkSize(miniBatchSize, nrChunk);
    MulMonotone(0, j, cs);
    assert (j + 1) * cs == j * cs + cs;
    MulMonotone(j + 1, nrChunk, cs);
    assert nrChunk * cs == miniBatchSize - miniBatchSize % nrChunk;
  }

  /** Two (chunk, position) pairs address the same sample exactly when they are the same pair. */
  lemma SampleIndexInjective(chunkSize: nat, j1: int, m1: int, j2: int, m2: int)
    requires 0 <= m1 < chunkSize && 0 <= m2 < chunkSize
    ensures SampleIndex(j1, m1, chunkSize) == SampleIndex(j2, m2, chunkSize) <==> j1 == j2 && m1 == m2
  {
    if j1 < j2 {
      assert j1 * chunkSize + m1 < (j1 + 1) * chunkSize <= j2 * chunkSize + m2;
    } else if j2 < j1 {
      assert j2 * chunkSize + m2 < (j2 + 1) * chunkSize <= j1 * chunkSize + m1;
    }
  }

  /** Every covered sample is addressed by some chunk and position. */
  lemma SampleIndexOnto(miniBatchSize: nat, nrChunk: nat, s: int)
    requires nrChunk > 0
    requires 0 <= s < Covered(miniBatchSize, nrChunk)
    ensures var cs := ChunkSize(miniBatchSize, nrChunk);
      cs > 0 && 0 <= s / cs < nrChunk && 0 <= s % cs < cs && SampleIndex(s / cs, s % cs, cs) == s
  {
    var cs := ChunkSize(miniBatchSize, nrChunk);
    assert cs > 0;
    assert (s / cs) * cs <= s < nrChunk * cs;
  }

  /** When `nrChunk` divides the batch, the chunks cover the whole batch;
      otherwise exactly the last `miniBatchSize % nrChunk` samples are skipped. */
  lemma CoveredSamples(miniBatchSize: nat, nrChunk: nat)
    requires nrChunk > 0
    ensures Covered(miniBatchSize, nrChunk) == miniBatchSize - miniBatchSize % nrChunk
    ensures Covered(miniBatchSize, nrChunk) == miniBatchSize <==> miniBatchSize % nrChunk == 0
  {
  }

  /**
   * What a schedule with `FeedforwardSchedule`'s guarantees means for the
   * batch: in every layer, sample `s` is visited exactly when it lies below
   * `miniBatchSize - miniBatchSize % nrChunk` (so all of them when `nrChunk`
   * divides the batch, and never one of the last `miniBatchSize % nrChunk`
   * otherwise), and no step occurs twice.
   */
  lemma ScheduleCoverage(steps: seq<Step>, numLayer: int, miniBatchSize: nat, nrChunk: nat)
    requires nrChunk > 0
    requires forall p, q :: 0 <= p < q < |steps| ==> Precedes(steps[p], steps[q])
    requires forall x :: x in steps <==> 0 <= x.layer < numLayer - 1 && 0 <= x.sample < Covered(miniBatchSize, nrChunk)
    ensures forall l, s :: 0 <= l < numLayer - 1 && 0 <= s < miniBatchSize ==>
      (Step(l, s) in steps <==> s < miniBatchSize - miniBatchSize % nrChunk)
    ensures miniBatchSize % nrChunk == 0 ==>
      forall l, s :: 0 <= l < numLayer - 1 && 0 <= s < miniBatchSize ==> Step(l, s) in steps
    ensures forall p, q :: 0 <= p < q < |steps| ==> steps[p] != steps[q]
  {
    CoveredSamples(miniBatchSize, nrChunk);
  }

  /**
   * The order in which `feedforward`'s loops over layers `i`, chunks `j` and
   * positions `m` visit the batch, one step per visited (layer, sample). The
   * steps come in strictly increasing order (so no sample is visited twice in
   * a layer and every layer is done before the next begins), and the visited
   * samples of each layer are exactly the covered prefix of the batch.
   */
  method FeedforwardSchedule(numLayer: int, miniBatchSize: nat, nrChunk: nat) returns (steps: seq<Step>)
    requires nrChunk > 0
    ensures forall p, q :: 0 <= p < q < |steps| ==> Precedes(steps[p], steps[q])
    ensures forall x :: x in steps <==> 0 <= x.layer < numLayer - 1 && 0 <= x.sample < Covered(miniBatchSize, nrChunk)
    ensures |steps| == (if numLayer > 1 then numLayer - 1 else 0) * Covered(miniBatchSize, nrChunk)
  {
    var chunkSize := miniBatchSize / nrChunk;
    ghost var covered := Covered(miniBatchSize, nrChunk);
    steps := [];
    var i := 0;
    while i < numLayer - 1
      invariant 0 <= i && (if numLayer > 1 then i <= numLayer - 1 else i == 0)
      invariant |steps| == i * covered
      invariant forall p, q :: 0 <= p < q < |steps| ==> Precedes(steps[p], steps[q])
      invariant forall x :: x in steps <==> 0 <= x.layer < i && 0 <= x.sample < covered
    {
      var j := 0;
      while j < nrChunk
        invariant 0 <= j <= nrChunk
        invariant |steps| == i * covered + j * chunkSize
        invariant forall p, q :: 0 <= p < q < |steps| ==> Precedes(steps[p], steps[q])
        invariant forall x :: x in steps <==>
          (0 <= x.layer < i && 0 <= x.sample < covered) || (x.layer == i && 0 <= x.sample < j * chunkSize)
      {
        var m := 0;
        while m < chunkSize
          invariant 0 <= m <= chunkSize
          invariant |steps| == i * covered + j * chunkSize + m
          invariant forall p, q :: 0 <= p < q < |steps| ==> Precedes(steps[p], steps[q])
          invariant forall x :: x in steps <==>
            (0 <= x.layer < i && 0 <= x.sample < covered) || (x.layer == i && 0 <= x.sample < j * chunkSize + m)
        {
          SampleIndexInBatch(miniBatchSize, nrChunk, j, m);
          var next := Step(i, SampleIndex(j, m, chunkSize));
          assert forall p :: 0 <= p < |steps| ==> steps[p] in steps;
          steps := steps + [next];
          m := m + 1;
        }
        assert j * chunkSize + chunkSize == (j + 1) * chunkSize;
        j := j + 1;
      }
      assert i * covered + covered == (i + 1) * covered;
      i := i + 1;
    }
  }
}
