/**
 * The bird's brain: a single-layer perceptron with four weights
 * (three sensor weights and one bias weight).
 *
 * Floating point is modelled by exact reals. The exponential function is a
 * parameter: for each argument it either yields a non-negative value or
 * overflows, which is all that the squashing function relies on.
 */
module NeuralNet {

  /** Number of weights, and the required length of an input vector. */
  const WeightCount: nat := 4

  /** Probability with which one weight is perturbed by a mutation. */
  const MutationRate: real := 0.1

  /** Largest magnitude of a single mutation step. */
  const MutationStep: real := 0.1

  type NonNegReal = r: real | r >= 0.0

  /** What one call of the exponential function gives: a finite value
      (a float exponential is never negative, and may underflow to zero)
      or an overflow error. */
  datatype ExpOutcome = Finite(value: NonNegReal) | Overflow

  datatype PredictError = InvalidInput

  datatype Result<T> = Ok(value: T) | Err(error: PredictError)

  /** Every weight lies in [-1, 1]. */
  predicate InRange(ws: seq<real>)
  {
    forall i :: 0 <= i < |ws| ==> -1.0 <= ws[i] <= 1.0
  }

  /** Sum of the pairwise products of the two vectors, accumulated from the
      first pair to the last; as with `zip`, the longer vector is cut to the
      length of the shorter. */
  function WeightedSum(xs: seq<real>, ws: seq<real>): real
    decreases |xs|
  {
    var n := if |xs| <= |ws| then |xs| else |ws|;
    if n == 0 then 0.0
    else WeightedSum(xs[..n - 1], ws[..n - 1]) + xs[n - 1] * ws[n - 1]
  }

  /** For two vectors of four elements the weighted sum is the fixed-order
      dot product i0*w0 + i1*w1 + i2*w2 + i3*w3. */
  lemma {:induction false} WeightedSumOfFour(xs: seq<real>, ws: seq<real>)
    requires |xs| == WeightCount && |ws| == WeightCount
    ensures WeightedSum(xs, ws) == xs[0] * ws[0] + xs[1] * ws[1] + xs[2] * ws[2] + xs[3] * ws[3]
  {
    assert xs[..3][..2] == xs[..2] && ws[..3][..2] == ws[..2];
    assert xs[..2][..1] == xs[..1] && ws[..2][..1] == ws[..1];
    assert xs[..1][..0] == [] && ws[..1][..0] == [];
    assert WeightedSum(xs[..1], ws[..1]) == xs[0] * ws[0];
    assert WeightedSum(xs[..2], ws[..2]) == xs[0] * ws[0] + xs[1] * ws[1];
  }

  /** Clamping into [-1, 1], as `max(-1, min(1, w))`. */
  function Clamp(w: real): (r: real)
    ensures -1.0 <= r <= 1.0
    ensures -1.0 <= w <= 1.0 ==> r == w
    ensures w > 1.0 ==> r == 1.0
    ensures w < -1.0 ==> r == -1.0
  {
    var upper := if w < 1.0 then w else 1.0;
    if upper > -1.0 then upper else -1.0
  }

  /** Clamping never moves two values further apart. */
  lemma ClampNonExpansive(a: real, b: real)
    ensures -(a - b) <= Clamp(a) - Clamp(b) <= a - b || a - b <= Clamp(a) - Clamp(b) <= -(a - b)
  {
  }

  /** The new value of one weight, given its roll and its delta. */
  function MutateWeight(w: real, roll: real, delta: real): (r: real)
    ensures roll >= MutationRate ==> r == w
    ensures roll < MutationRate ==> -1.0 <= r <= 1.0
  {
    if roll < MutationRate then Clamp(w + delta) else w
  }

  /** A weight that was in range and is perturbed by a delta within the
      mutation step moves by at most that step. */
  lemma MutationStepBounded(w: real, roll: real, delta: real)
    requires -1.0 <= w <= 1.0
    requires -MutationStep <= delta <= MutationStep
    ensures -MutationStep <= MutateWeight(w, roll, delta) - w <= MutationStep
  {
  }

  /** The weight vector after one mutation pass, one roll and one delta per
      index. */
  function Mutated(ws: seq<real>, rolls: seq<real>, deltas: seq<real>): (r: seq<real>)
    requires |rolls| == |ws| && |deltas| == |ws|
    ensures |r| == |ws|
    ensures forall i :: 0 <= i < |ws| && rolls[i] >= MutationRate ==> r[i] == ws[i]
    ensures forall i :: 0 <= i < |ws| && rolls[i] < MutationRate ==> r[i] == Clamp(ws[i] + deltas[i])
  {
    seq(|ws|, i requires 0 <= i < |ws| => MutateWeight(ws[i], rolls[i], deltas[i]))
  }

  /** Mutation keeps every weight in [-1, 1]. */
  lemma MutatedInRange(ws: seq<real>, rolls: seq<real>, deltas: seq<real>)
    requires |rolls| == |ws| && |deltas| == |ws|
    requires InRange(ws)
    ensures InRange(Mutated(ws, rolls, deltas))
  {
  }

  /** Each weight moves by at most the mutation step when its delta is drawn
      from [-0.1, 0.1]. */
  lemma MutatedStepBounded(ws: seq<real>, rolls: seq<real>, deltas: seq<real>, i: nat)
    requires |rolls| == |ws| && |deltas| == |ws|
    requires InRange(ws) && i < |ws|
    requires -MutationStep <= deltas[i] <= MutationStep
    ensures -MutationStep <= Mutated(ws, rolls, deltas)[i] - ws[i] <= MutationStep
  {
  }

  class NeuralNetwork {
    const weights: array<real>

    /** The class invariant: exactly four weights, each in [-1, 1]. */
    ghost predicate Valid()
      reads weights
    {
      weights.Length == WeightCount && InRange(weights[..])
    }

    /** A new network takes four uniform draws from [-1, 1] as its weights. */
    constructor (draws: seq<real>)
      requires |draws| == WeightCount && InRange(draws)
      ensures fresh(weights)
      ensures Valid()
      ensures weights[..] == draws
    {
      weights := new real[WeightCount](i => if 0 <= i < |draws| then draws[i] else 0.0);
    }

    /** The logistic function 1 / (1 + e^-x), saturating to 0 for negative x
        and to 1 otherwise when the exponential overflows. */
    static function Sigmoid(x: real, exp: real -> ExpOutcome): (r: real)
      ensures 0.0 <= r <= 1.0
      ensures exp(-x).Finite? ==> 0.0 < r && (r == 1.0 <==> exp(-x).value == 0.0)
      ensures exp(-x).Overflow? ==> (r == 0.0 <==> x < 0.0) && (r == 0.0 || r == 1.0)
    {
      match exp(-x)
      case Finite(p) => 1.0 / (1.0 + p)
      case Overflow => if x < 0.0 then 0.0 else 1.0
    }

    /** When the exponential is finite and e^x * e^-x == 1, the logistic
        function is point-symmetric: s(x) + s(-x) == 1. */
    static lemma SigmoidSymmetric(x: real, exp: real -> ExpOutcome)
      requires exp(-x).Finite? && exp(x).Finite?
      requires exp(-x).value * exp(x).value == 1.0
      ensures Sigmoid(x, exp) + Sigmoid(-x, exp) == 1.0
    {
    }

    /** The decision for one input vector: an error unless it has exactly
        four elements, otherwise the squashed dot product of the inputs with
        the weights. Being a function, it is deterministic and writes
        nothing. */
    function Predict(inputs: seq<real>, exp: real -> ExpOutcome): (r: Result<real>)
      reads weights
      ensures r.Err? <==> |inputs| != WeightCount
      ensures r.Err? ==> r.error == InvalidInput
      ensures r.Ok? ==> 0.0 <= r.value <= 1.0
    {
      if |inputs| != WeightCount then Err(InvalidInput)
      else Ok(Sigmoid(WeightedSum(inputs, weights[..]), exp))
    }

    /** On four inputs and four weights the decision is the logistic function
        of i0*w0 + i1*w1 + i2*w2 + i3*w3. */
    lemma PredictIsDotProduct(inputs: seq<real>, exp: real -> ExpOutcome)
      requires |inputs| == WeightCount && weights.Length == WeightCount
      ensures Predict(inputs, exp)
        == Ok(Sigmoid(inputs[0] * weights[0] + inputs[1] * weights[1]
                      + inputs[2] * weights[2] + inputs[3] * weights[3], exp))
    {
      var w := weights[..];
      WeightedSumOfFour(inputs, w);
      assert w[0] == weights[0] && w[1] == weights[1] && w[2] == weights[2] && w[3] == weights[3];
      var d := inputs[0] * weights[0] + inputs[1] * weights[1] + inputs[2] * weights[2] + inputs[3] * weights[3];
      assert WeightedSum(inputs, w) == d;
      assert Predict(inputs, exp) == Ok(Sigmoid(WeightedSum(inputs, w), exp));
      assert Sigmoid(WeightedSum(inputs, w), exp) == Sigmoid(d, exp);
    }

    /** One mutation pass over the weights, in place: weight i is perturbed
        by deltas[i] and clamped when rolls[i] is below the mutation rate. */
    method Mutate(rolls: seq<real>, deltas: seq<real>)
      requires Valid()
      requires |rolls| == weights.Length && |deltas| == weights.Length
      modifies weights
      ensures Valid()
      ensures weights[..] == Mutated(old(weights[..]), rolls, deltas)
    {
      for i := 0 to weights.Length
        invariant forall k :: 0 <= k < i ==> weights[k] == MutateWeight(old(weights[k]), rolls[k], deltas[k])
        invariant forall k :: i <= k < weights.Length ==> weights[k] == old(weights[k])
      {
        if rolls[i] < MutationRate {
          weights[i] := weights[i] + deltas[i];
          weights[i] := Clamp(weights[i]);
        }
      }
      MutatedInRange(old(weights[..]), rolls, deltas);
    }
  }
}
