/**
 * The scoring half of `predict`. For each test sample the forward pass (not
 * modelled here) leaves an activation for every output neuron; the prediction
 * is the index of the first largest activation, and `predict` returns how many
 * predictions equal their sample's label.
 */
module Evaluator {

  /**
   * The index `predict`'s scan settles on: start at index 0 and move only to a
   * strictly larger value. It is the largest activation, and the first one
   * among equals.
   */
  function FirstMaxIndex(output: seq<real>): (r: nat)
    requires |output| > 0
    ensures r < |output|
    ensures forall j :: 0 <= j < |output| ==> output[j] <= output[r]
    ensures forall j :: 0 <= j < r ==> output[j] < output[r]
  {
    if |output| == 1 then 0
    else
      var k := FirstMaxIndex(output[..|output| - 1]);
      if output[|output| - 1] > output[k] then |output| - 1 else k
  }

  /** Whether sample `i`'s prediction equals its label. */
  predicate Correct(outputs: seq<seq<real>>, labels: seq<int>, i: int)
    requires 0 <= i < |outputs| && |outputs[i]| > 0 && i < |labels|
  {
    FirstMaxIndex(outputs[i]) == labels[i]
  }

  predicate WellShaped(outputs: seq<seq<real>>, labels: seq<int>)
  {
    |outputs| == |labels| && forall i :: 0 <= i < |outputs| ==> |outputs[i]| > 0
  }

  /** The number of test samples whose prediction equals their label. */
  function CountCorrect(outputs: seq<seq<real>>, labels: seq<int>): (n: nat)
    requires WellShaped(outputs, labels)
    ensures n <= |labels|
  {
    if |outputs| == 0 then 0
    else
      var last := |outputs| - 1;
      CountCorrect(outputs[..last], labels[..last]) + if Correct(outputs, labels, last) then 1 else 0
  }

  /** The set of test samples predicted correctly. */
  ghost function CorrectSet(outputs: seq<seq<real>>, labels: seq<int>): set<int>
    requires WellShaped(outputs, labels)
  {
    set i | 0 <= i < |outputs| && Correct(outputs, labels, i)
  }

  /** The count is the number of correctly predicted samples. */
  lemma {:induction false} CountCorrectIsCorrectSetSize(outputs: seq<seq<real>>, labels: seq<int>)
    requires WellShaped(outputs, labels)
    ensures CountCorrect(outputs, labels) == |CorrectSet(outputs, labels)|
    decreases |outputs|
  {
    if |outputs| > 0 {
      var last := |outputs| - 1;
      var o, l := outputs[..last], labels[..last];
      CountCorrectIsCorrectSetSize(o, l);
      forall i | 0 <= i < last
        ensures Correct(o, l, i) == Correct(outputs, labels, i)
      {
        assert o[i] == outputs[i] && l[i] == labels[i];
      }
      var before := CorrectSet(o, l);
      if Correct(outputs, labels, last) {
        assert CorrectSet(outputs, labels) == before + {last};
      } else {
        assert CorrectSet(outputs, labels) == before;
      }
    }
  }

  /** Every sample counts exactly when the count reaches the test-set size. */
  lemma {:induction false} CountCorrectAll(outputs: seq<seq<real>>, labels: seq<int>)
    requires WellShaped(outputs, labels)
    ensures CountCorrect(outputs, labels) == |labels| <==>
      forall i :: 0 <= i < |outputs| ==> Correct(outputs, labels, i)
    decreases |outputs|
  {
    if |outputs| > 0 {
      var last := |outputs| - 1;
      var o, l := outputs[..last], labels[..last];
      CountCorrectAll(o, l);
      forall i | 0 <= i < last
        ensures Correct(o, l, i) == Correct(outputs, labels, i)
      {
        assert o[i] == outputs[i] && l[i] == labels[i];
      }
    }
  }

  /** The argmax loop of `predict`: scan the activations, keeping the first strict maximum. */
  method ArgMax(output: seq<real>) returns (maxIdx: int)
    requires |output| > 0
    ensures 0 <= maxIdx < |output|
    ensures forall j :: 0 <= j < |output| ==> output[j] <= output[maxIdx]
    ensures forall j :: 0 <= j < maxIdx ==> output[j] < output[maxIdx]
    ensures maxIdx == FirstMaxIndex(output)
  {
    var max := output[0];
    maxIdx := 0;
    for j := 0 to |output|
      invariant 0 <= maxIdx < |output| && maxIdx <= j
      invariant max == output[maxIdx]
      invariant forall t :: 0 <= t < j ==> output[t] <= max
      invariant forall t :: 0 <= t < maxIdx ==> output[t] < max
    {
      if output[j] > max {
        max := output[j];
        maxIdx := j;
      }
    }
  }

  /**
   * `predict` over a test set whose output activations are given: for every
   * sample take the argmax and count the matches with the label.
   */
  method Predict(outputs: seq<seq<real>>, labels: seq<int>) returns (nrTrue: int)
    requires WellShaped(outputs, labels)
    ensures nrTrue == CountCorrect(outputs, labels)
    ensures 0 <= nrTrue <= |labels|
  {
    nrTrue := 0;
    for i := 0 to |outputs|
      invariant nrTrue == CountCorrect(outputs[..i], labels[..i])
    {
      var maxIdx := ArgMax(outputs[i]);
      if labels[i] == maxIdx {
        nrTrue := nrTrue + 1;
      }
      assert outputs[..i + 1][..i] == outputs[..i] && labels[..i + 1][..i] == labels[..i];
    }
    assert outputs[..|outputs|] == outputs && labels[..|labels|] == labels;
  }
}
