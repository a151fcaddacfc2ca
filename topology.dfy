/**
 * The topology offset tables that `init` builds once per network.
 *
 * `NeuronOffset` and `WeightOffset` are the running totals the loop keeps.
 * The lemmas show that `ac_neuron[i]` is the number of neurons in layers 0..i
 * (an inclusive prefix sum of the layer widths) and `ac_weight[i]` the number
 * of weights in the transitions 0..i, where transition t joins layer t to
 * layer t+1 and holds `width[t] * width[t+1]` weights. The last transition
 * entry, `ac_weight[num_layer-1]`, is never written.
 */
module Topology {

  /** Sum of a sequence. */
  function Sum(s: seq<int>): int
  {
    if s == [] then 0 else Sum(s[..|s| - 1]) + s[|s| - 1]
  }

  /** The weight count of every layer transition: `width[t] * width[t+1]`. */
  function TransitionWeights(widths: seq<int>): seq<int>
  {
    if |widths| == 0 then []
    else seq(|widths| - 1, t requires 0 <= t < |widths| - 1 => widths[t] * widths[t + 1])
  }

  /** The value `init` stores in `ac_neuron[i]`: the running neuron total after layer i. */
  function NeuronOffset(widths: seq<int>, i: nat): int
    requires i < |widths|
  {
    if i == 0 then widths[0] else NeuronOffset(widths, i - 1) + widths[i]
  }

  /** The value `init` stores in `ac_weight[i]`: the running weight total after transition i. */
  function WeightOffset(widths: seq<int>, i: nat): int
    requires i + 1 < |widths|
  {
    if i == 0 then widths[0] * widths[1] else WeightOffset(widths, i - 1) + widths[i] * widths[i + 1]
  }

  predicate NonNegative(widths: seq<int>)
  {
    forall i :: 0 <= i < |widths| ==> widths[i] >= 0
  }

  /** Appending one element adds it to the sum. */
  lemma SumPrefixStep(s: seq<int>, i: nat)
    requires i < |s|
    ensures Sum(s[..i + 1]) == Sum(s[..i]) + s[i]
  {
    assert s[..i + 1][..i] == s[..i];
  }

  /** `ac_neuron[i]` is the inclusive prefix sum of the widths of layers 0..i. */
  lemma {:induction false} NeuronOffsetIsPrefixSum(widths: seq<int>, i: nat)
    requires i < |widths|
    ensures NeuronOffset(widths, i) == Sum(widths[..i + 1])
  {
    SumPrefixStep(widths, i);
    if i > 0 {
      NeuronOffsetIsPrefixSum(widths, i - 1);
    } else {
      assert widths[..0] == [];
    }
  }

  /** `ac_weight[i]` is the sum of `width[t] * width[t+1]` over the transitions t <= i. */
  lemma {:induction false} WeightOffsetIsPrefixSum(widths: seq<int>, i: nat)
    requires i + 1 < |widths|
    ensures |TransitionWeights(widths)| == |widths| - 1
    ensures WeightOffset(widths, i) == Sum(TransitionWeights(widths)[..i + 1])
  {
    var w := TransitionWeights(widths);
    SumPrefixStep(w, i);
    if i > 0 {
      WeightOffsetIsPrefixSum(widths, i - 1);
    } else {
      assert w[..0] == [];
    }
  }

  /** With non-negative widths the neuron offsets never decrease. */
  lemma {:induction false} NeuronOffsetMonotone(widths: seq<int>, i: nat, j: nat)
    requires NonNegative(widths)
    requires i <= j < |widths|
    ensures NeuronOffset(widths, i) <= NeuronOffset(widths, j)
    decreases j - i
  {
    if i < j {
      NeuronOffsetMonotone(widths, i, j - 1);
    }
  }

  /** The last neuron offset is the total neuron count of the network. */
  lemma LastNeuronOffsetIsTotal(widths: seq<int>)
    requires |widths| > 0
    ensures NeuronOffset(widths, |widths| - 1) == Sum(widths)
  {
    NeuronOffsetIsPrefixSum(widths, |widths| - 1);
    assert widths[..|widths|] == widths;
  }

  /** The last written weight offset, `ac_weight[num_layer-2]`, is the total weight count. */
  lemma LastWeightOffsetIsTotal(widths: seq<int>)
    requires |widths| >= 2
    ensures WeightOffset(widths, |widths| - 2) == Sum(TransitionWeights(widths))
  {
    var w := TransitionWeights(widths);
    WeightOffsetIsPrefixSum(widths, |widths| - 2);
    assert w[..|w|] == w;
  }

  /** Layer j's neurons occupy `[NeuronOffset(j) - widths[j], NeuronOffset(j))`.
      With non-negative widths these ranges start at 0, follow each other
      without gaps, and a later layer's range lies entirely after an earlier one's. */
  lemma NeuronRangesDisjoint(widths: seq<int>, i: nat, j: nat)
    requires NonNegative(widths)
    requires i < j < |widths|
    ensures NeuronOffset(widths, 0) - widths[0] == 0
    ensures NeuronOffset(widths, j) - widths[j] == NeuronOffset(widths, j - 1)
    ensures NeuronOffset(widths, i) <= NeuronOffset(widths, j) - widths[j]
  {
    NeuronOffsetMonotone(widths, i, j - 1);
  }

  /**
   * The offset loop of `init`. `acNeuron` and `acWeight` are the two tables
   * (allocated with one entry per layer); `beforeNeurons` and `beforeWeights`
   * are the running totals. The weight table's last entry is skipped.
   */
  method ComputeOffsets(layerSize: seq<int>, acNeuron: array<int>, acWeight: array<int>)
    requires acNeuron.Length == |layerSize| && acWeight.Length == |layerSize|
    requires acNeuron != acWeight
    modifies acNeuron, acWeight
    ensures forall i :: 0 <= i < |layerSize| ==> acNeuron[i] == NeuronOffset(layerSize, i)
    ensures forall i :: 0 <= i && i + 1 < |layerSize| ==> acWeight[i] == WeightOffset(layerSize, i)
    ensures |layerSize| > 0 ==> acWeight[|layerSize| - 1] == old(acWeight[|layerSize| - 1])
  {
    var beforeWeights := 0;
    var beforeNeurons := 0;
    for i := 0 to |layerSize|
      invariant beforeNeurons == if i == 0 then 0 else NeuronOffset(layerSize, i - 1)
      invariant i + 1 < |layerSize| ==> beforeWeights == if i == 0 then 0 else WeightOffset(layerSize, i - 1)
      invariant forall t {:trigger acNeuron[t]} :: 0 <= t < i ==> acNeuron[t] == NeuronOffset(layerSize, t)
      invariant forall t {:trigger acWeight[t]} :: 0 <= t < i && t + 1 < |layerSize| ==>
        acWeight[t] == WeightOffset(layerSize, t)
      invariant |layerSize| > 0 ==> acWeight[|layerSize| - 1] == old(acWeight[|layerSize| - 1])
    {
      acNeuron[i] := layerSize[i] + beforeNeurons;
      beforeNeurons := acNeuron[i];

      if i == |layerSize| - 1 {
        continue;
      }

      acWeight[i] := layerSize[i] * layerSize[i + 1] + beforeWeights;
      beforeWeights := acWeight[i];
    }
  }
}
