/**
 * The bookkeeping state of `struct network` and the integer and selection
 * steps of `init` and `train` around the (unmodelled) numeric passes.
 *
 * Activation and error values are reals and are only copied, zeroed, set to
 * one or compared; nothing here computes with them.
 */
module NeuralNet {
  import Topology
  import Evaluator

  /** The one-hot target row for `labelIndex` over `n` output neurons. */
  function OneHot(n: nat, labelIndex: int): seq<real>
  {
    seq(n, l => if l == labelIndex then 1.0 else 0.0)
  }

  /** The seeded target is exactly the output the evaluator scores as `labelIndex`:
      its first largest entry sits at the label's index. */
  lemma OneHotPredictsLabel(n: nat, labelIndex: int)
    requires 0 <= labelIndex < n
    ensures |OneHot(n, labelIndex)| == n
    ensures Evaluator.FirstMaxIndex(OneHot(n, labelIndex)) == labelIndex
  {
    var t := OneHot(n, labelIndex);
    var r := Evaluator.FirstMaxIndex(t);
    assert t[labelIndex] == 1.0 && t[labelIndex] <= t[r];
  }

  /** `train`'s update of `best_recog`: keep the larger value; ties keep the old one. */
  function Max(best: int, recog: int): int
  {
    if recog > best then recog else best
  }

  /** `best_recog` after epochs scoring `recogs`, starting from `best`. */
  function BestAfter(best: int, recogs: seq<int>): int
  {
    if recogs == [] then best else Max(BestAfter(best, recogs[..|recogs| - 1]), recogs[|recogs| - 1])
  }

  /** The tracked value is the maximum of the start value and every epoch's score. */
  lemma {:induction false} BestAfterIsMaximum(best: int, recogs: seq<int>)
    ensures BestAfter(best, recogs) >= best
    ensures forall e :: 0 <= e < |recogs| ==> BestAfter(best, recogs) >= recogs[e]
    ensures BestAfter(best, recogs) == best || exists e :: 0 <= e < |recogs| && BestAfter(best, recogs) == recogs[e]
    decreases |recogs|
  {
    if recogs != [] {
      var init := recogs[..|recogs| - 1];
      BestAfterIsMaximum(best, init);
      assert forall e :: 0 <= e < |init| ==> init[e] == recogs[e];
      if BestAfter(best, recogs) != best && BestAfter(best, recogs) != recogs[|recogs| - 1] {
        var e :| 0 <= e < |init| && BestAfter(best, init) == init[e];
        assert BestAfter(best, recogs) == recogs[e];
      }
    }
  }

  /** Across epochs the tracked best never decreases. */
  lemma {:induction false} BestAfterMonotone(best: int, recogs: seq<int>, i: nat, j: nat)
    requires i <= j <= |recogs|
    ensures BestAfter(best, recogs[..i]) <= BestAfter(best, recogs[..j])
    decreases j - i
  {
    if i < j {
      BestAfterMonotone(best, recogs, i, j - 1);
      assert recogs[..j][..j - 1] == recogs[..j - 1];
    }
  }

  /** Each epoch's test score, as `predict` computes it. */
  function EpochScores(testOutputs: seq<seq<seq<real>>>, testLabels: seq<int>): (scores: seq<int>)
    requires forall e :: 0 <= e < |testOutputs| ==> Evaluator.WellShaped(testOutputs[e], testLabels)
    ensures |scores| == |testOutputs|
    ensures forall e :: 0 <= e < |scores| ==> 0 <= scores[e] <= |testLabels|
  {
    seq(|testOutputs|, e requires 0 <= e < |testOutputs| => Evaluator.CountCorrect(testOutputs[e], testLabels))
  }

  class Network {
    /** `layer_size`; its length is `num_layer`. */
    const layerSize: seq<int>
    const miniBatchSize: int
    /** `ac_neuron` and `ac_weight`, one entry per layer. */
    const acNeuron: array<int>
    const acWeight: array<int>
    /** Layer-0 activations of every batch sample: `NEURON(net, 0, k, l)`. */
    const input: array2<real>
    /** Last-layer error rows of every batch sample: `ERROR(net, num_layer-1, k, l)`. */
    const target: array2<real>
    var bestRecog: int

    function LastWidth(): int
      reads this
      requires |layerSize| > 0
    {
      layerSize[|layerSize| - 1]
    }

    ghost predicate Valid()
      reads this, acNeuron, acWeight
    {
      && |layerSize| >= 2
      && Topology.NonNegative(layerSize)
      && LastWidth() > 0
      && miniBatchSize > 0
      && acNeuron.Length == |layerSize| && acWeight.Length == |layerSize|
      && (forall i :: 0 <= i < |layerSize| ==> acNeuron[i] == Topology.NeuronOffset(layerSize, i))
      && (forall i :: 0 <= i && i + 1 < |layerSize| ==> acWeight[i] == Topology.WeightOffset(layerSize, i))
      && input != target
      && input.Length0 == miniBatchSize && input.Length1 == layerSize[0]
      && target.Length0 == miniBatchSize && target.Length1 == LastWidth()
      && bestRecog >= 0
    }

    /**
     * The bookkeeping part of `init`: `best_recog` starts at 0, the offset
     * tables are filled, and the per-batch buffers are sized from the batch
     * size and the layer widths.
     */
    constructor Init(layerSize: seq<int>, miniBatchSize: int)
      requires |layerSize| >= 2 && Topology.NonNegative(layerSize)
      requires layerSize[|layerSize| - 1] > 0
      requires miniBatchSize > 0
      ensures Valid()
      ensures fresh(acNeuron) && fresh(acWeight) && fresh(input) && fresh(target)
      ensures this.layerSize == layerSize && this.miniBatchSize == miniBatchSize
      ensures bestRecog == 0
    {
      var acN := new int[|layerSize|];
      var acW := new int[|layerSize|];
      Topology.ComputeOffsets(layerSize, acN, acW);
      this.layerSize := layerSize;
      this.miniBatchSize := miniBatchSize;
      acNeuron, acWeight := acN, acW;
      input := new real[miniBatchSize, layerSize[0]];
      target := new real[miniBatchSize, layerSize[|layerSize| - 1]];
      bestRecog := 0;
    }

    /**
     * Seed the target of batch sample `k`: zero its last-layer error row, then
     * put 1.0 at the label's index. The rows of the other samples stay as they were.
     */
    method SeedTarget(k: int, labelIndex: int)
      requires Valid()
      requires 0 <= k < miniBatchSize && 0 <= labelIndex < LastWidth()
      modifies target
      ensures Valid()
      ensures forall l :: 0 <= l < LastWidth() ==> target[k, l] == OneHot(LastWidth(), labelIndex)[l]
      ensures forall s, l :: 0 <= s < miniBatchSize && s != k && 0 <= l < LastWidth() ==>
        target[s, l] == old(target[s, l])
    {
      for l := 0 to LastWidth()
        invariant forall t :: 0 <= t < l ==> target[k, t] == 0.0
        invariant forall s, t :: 0 <= s < miniBatchSize && s != k && 0 <= t < LastWidth() ==>
          target[s, t] == old(target[s, t])
      {
        target[k, l] := 0.0;
      }
      target[k, labelIndex] := 1.0;
    }

    /**
     * Fill one mini-batch: batch sample `k` is training sample `draw[k]`
     * (the `rand() % nr_train` draw); its input row is copied into layer 0 and
     * its label is seeded as a one-hot target.
     */
    method LoadBatch(trainQ: seq<seq<real>>, trainA: seq<int>, draw: seq<int>)
      requires Valid()
      requires |draw| == miniBatchSize && |trainA| == |trainQ|
      requires forall k :: 0 <= k < |draw| ==> 0 <= draw[k] < |trainQ|
      requires forall s :: 0 <= s < |trainQ| ==> |trainQ[s]| == layerSize[0]
      requires forall k :: 0 <= k < |draw| ==> 0 <= trainA[draw[k]] < LastWidth()
      modifies input, target
      ensures Valid()
      ensures forall k, l :: 0 <= k < miniBatchSize && 0 <= l < layerSize[0] ==>
        input[k, l] == trainQ[draw[k]][l]
      ensures forall k, l :: 0 <= k < miniBatchSize && 0 <= l < LastWidth() ==>
        target[k, l] == OneHot(LastWidth(), trainA[draw[k]])[l]
    {
      for k := 0 to miniBatchSize
        invariant Valid()
        invariant forall b, l :: 0 <= b < k && 0 <= l < layerSize[0] ==> input[b, l] == trainQ[draw[b]][l]
        invariant forall b, l :: 0 <= b < k && 0 <= l < LastWidth() ==>
          target[b, l] == OneHot(LastWidth(), trainA[draw[b]])[l]
      {
        var sIndex := draw[k];
        for l := 0 to layerSize[0]
          modifies input
          invariant forall t :: 0 <= t < l ==> input[k, t] == trainQ[sIndex][t]
          invariant forall b, t :: 0 <= b < k && 0 <= t < layerSize[0] ==> input[b, t] == trainQ[draw[b]][t]
        {
          input[k, l] := trainQ[sIndex][l];
        }
        SeedTarget(k, trainA[sIndex]);
      }
    }

    /** The end-of-epoch update of `best_recog` with this epoch's score. */
    method RecordEpoch(recog: int)
      requires Valid()
      modifies this`bestRecog
      ensures Valid()
      ensures bestRecog == Max(old(bestRecog), recog)
      ensures bestRecog >= old(bestRecog) && bestRecog >= recog
    {
      if recog > bestRecog {
        bestRecog := recog;
      }
    }

    /**
     * The loops of `train`. Each epoch runs `nr_train / mini_batch_size`
     * mini-batches, each filled from the draws given for it (the forward and
     * backward passes and the update that follow are not modelled), and ends by
     * scoring the test set (whose output activations after that epoch are
     * given) and updating `best_recog`.
     */
    method Train(trainQ: seq<seq<real>>, trainA: seq<int>, draws: seq<seq<seq<int>>>,
                 testOutputs: seq<seq<seq<real>>>, testLabels: seq<int>)
      requires Valid()
      requires |trainA| == |trainQ|
      requires forall s :: 0 <= s < |trainQ| ==> |trainQ[s]| == layerSize[0]
      requires forall s :: 0 <= s < |trainA| ==> 0 <= trainA[s] < LastWidth()
      requires |draws| == |testOutputs|
      requires forall e :: 0 <= e < |draws| ==> |draws[e]| == |trainQ| / miniBatchSize
      requires forall e, b :: 0 <= e < |draws| && 0 <= b < |draws[e]| ==> |draws[e][b]| == miniBatchSize
      requires forall e, b, k :: 0 <= e < |draws| && 0 <= b < |draws[e]| && 0 <= k < |draws[e][b]| ==>
        0 <= draws[e][b][k] < |trainQ|
      requires forall e :: 0 <= e < |testOutputs| ==> Evaluator.WellShaped(testOutputs[e], testLabels)
      modifies input, target, this`bestRecog
      ensures Valid()
      ensures bestRecog == BestAfter(old(bestRecog), EpochScores(testOutputs, testLabels))
    {
      var nrLoop := |trainQ| / miniBatchSize;
      ghost var scores := EpochScores(testOutputs, testLabels);
      for e := 0 to |draws|
        invariant Valid()
        invariant bestRecog == BestAfter(old(bestRecog), scores[..e])
      {
        for j := 0 to nrLoop
          invariant Valid()
          invariant bestRecog == BestAfter(old(bestRecog), scores[..e])
        {
          LoadBatch(trainQ, trainA, draws[e][j]);
        }
        var recog := Evaluator.Predict(testOutputs[e], testLabels);
        RecordEpoch(recog);
        assert scores[..e + 1][..e] == scores[..e];
      }
      assert scores[..|draws|] == scores;
    }
  }
}
