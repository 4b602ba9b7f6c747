/** Logistic regression fitted in place (scripts/e2e-mini-train.py, `predict` and the training loop). */
module Trainer {
  import opened Features
  import opened Raster
  import opened Ratios

  const LEARNING_RATE: real := 4.0
  const EXPONENT_LIMIT: real := 30.0

  datatype Sample = Sample(row: seq<real>, target: int)

  /** The logistic function, known here only by its range. */
  ghost predicate Sigmoid(sigma: real -> real) {
    forall x :: 0.0 < sigma(x) < 1.0
  }

  predicate Trainable(samples: seq<Sample>) {
    samples != [] && forall j :: 0 <= j < |samples| ==> UnitRow(samples[j].row) && samples[j].target in {0, 1}
  }

  /** The first k terms of the score. */
  function DotTo(weights: seq<real>, row: seq<real>, k: nat): real
    requires k <= |weights| == |row|
  {
    if k == 0 then 0.0 else DotTo(weights, row, k - 1) + weights[k - 1] * row[k - 1]
  }

  function Dot(weights: seq<real>, row: seq<real>): real
    requires |weights| == |row|
  {
    DotTo(weights, row, |row|)
  }

  function Clamped(x: real): (c: real)
    ensures -EXPONENT_LIMIT <= c <= EXPONENT_LIMIT
    ensures -EXPONENT_LIMIT <= x <= EXPONENT_LIMIT ==> c == x
  {
    if x < -EXPONENT_LIMIT then -EXPONENT_LIMIT else if x > EXPONENT_LIMIT then EXPONENT_LIMIT else x
  }

  function Predict(sigma: real -> real, weights: seq<real>, row: seq<real>): real
    requires |weights| == |row|
  {
    sigma(Clamped(Dot(weights, row)))
  }

  /** Between the limits a prediction is the logistic function of the score; beyond them all scores predict alike. */
  lemma PredictSaturates(sigma: real -> real, weights: seq<real>, others: seq<real>, row: seq<real>)
    requires |weights| == |others| == |row|
    ensures -30.0 <= Dot(weights, row) <= 30.0 ==> Predict(sigma, weights, row) == sigma(Dot(weights, row))
    ensures Dot(weights, row) >= 30.0 && Dot(others, row) >= 30.0 ==>
      Predict(sigma, weights, row) == Predict(sigma, others, row) == sigma(30.0)
    ensures Dot(weights, row) <= -30.0 && Dot(others, row) <= -30.0 ==>
      Predict(sigma, weights, row) == Predict(sigma, others, row) == sigma(-30.0)
  {
    assert Clamped(Dot(weights, row)) == (
      if Dot(weights, row) > 30.0 then 30.0 else if Dot(weights, row) < -30.0 then -30.0 else Dot(weights, row));
  }

  /** How far one sample moves a weight, out of n samples. */
  function Step(error: real, value: real, n: nat): real
    requires n > 0
  {
    LEARNING_RATE * error * value / n as real
  }

  /** The weights after one sample: every one moved by the error made with the weights before. */
  function Nudged(sigma: real -> real, weights: seq<real>, sample: Sample, n: nat): (w: seq<real>)
    requires n > 0 && |weights| == |sample.row|
    ensures |w| == |weights|
  {
    var error := Predict(sigma, weights, sample.row) - sample.target as real;
    seq(|weights|, i requires 0 <= i < |weights| => weights[i] - Step(error, sample.row[i], n))
  }

  /** The weights after `epochs` whole passes and the first `j` samples of the next. */
  function Trained(sigma: real -> real, samples: seq<Sample>, epochs: nat, j: nat): (w: seq<real>)
    requires Trainable(samples) && j <= |samples|
    ensures |w| == 8
    decreases epochs, j
  {
    if j > 0 then Nudged(sigma, Trained(sigma, samples, epochs, j - 1), samples[j - 1], |samples|)
    else if epochs > 0 then Trained(sigma, samples, epochs - 1, |samples|)
    else seq(8, _ => 0.0)
  }

  // ── Which way one sample moves them ────────────────────────────────────────

  /** The weights after are the weights before and a multiple of the row. */
  predicate Moved(before: seq<real>, after: seq<real>, row: seq<real>, c: real) {
    |before| == |after| == |row| && forall i :: 0 <= i < |row| ==> after[i] == before[i] + c * row[i]
  }

  ghost predicate TermsMove(
    before: seq<real>, after: seq<real>, row: seq<real>, other: seq<real>, c: real)
  {
    && |before| == |after| == |row| == |other|
    && forall i :: 0 <= i < |row| ==> after[i] * other[i] == before[i] * other[i] + c * (row[i] * other[i])
  }

  lemma MovedTerms(before: seq<real>, after: seq<real>, row: seq<real>, other: seq<real>, c: real)
    requires Moved(before, after, row, c) && |row| == |other|
    ensures TermsMove(before, after, row, other, c)
  {
    forall i | 0 <= i < |row|
      ensures after[i] * other[i] == before[i] * other[i] + c * (row[i] * other[i])
    {
      MovedTerm(before[i], after[i], row[i], other[i], c);
    }
  }

  lemma {:induction false} TermsAddUp(
    before: seq<real>, after: seq<real>, row: seq<real>, other: seq<real>, c: real, k: nat)
    requires TermsMove(before, after, row, other, c) && k <= |row|
    ensures DotTo(after, other, k) == DotTo(before, other, k) + c * DotTo(row, other, k)
  {
    if k > 0 {
      var n := k - 1;
      TermsAddUp(before, after, row, other, c, n);
      SumMoves(
        DotTo(after, other, n), DotTo(before, other, n), DotTo(row, other, n),
        after[n] * other[n], before[n] * other[n], row[n] * other[n], c);
    }
  }

  lemma DotMoved(before: seq<real>, after: seq<real>, row: seq<real>, other: seq<real>, c: real)
    requires Moved(before, after, row, c) && |row| == |other|
    ensures Dot(after, other) == Dot(before, other) + c * Dot(row, other)
  {
    MovedTerms(before, after, row, other, c);
    TermsAddUp(before, after, row, other, c, |row|);
  }

  predicate NonZero(row: seq<real>) { exists i :: 0 <= i < |row| && row[i] != 0.0 }

  lemma {:induction false} SquarePositive(row: seq<real>, same: seq<real>, k: nat)
    requires k <= |row| == |same| && forall i :: 0 <= i < |row| ==> row[i] == same[i]
    ensures DotTo(row, same, k) >= 0.0
    ensures forall i :: 0 <= i < k && row[i] != 0.0 ==> DotTo(row, same, k) > 0.0
  {
    if k > 0 {
      SquarePositive(row, same, k - 1);
      SquareSign(row[k - 1], same[k - 1]);
    }
  }

  lemma StepIsShare(weight: real, error: real, value: real, m: real, gain: real)
    requires m > 0.0 && gain == LEARNING_RATE / m * -error
    ensures weight - LEARNING_RATE * error * value / m == weight + gain * value
  {
    var r := 1.0 / m;
    Associates(LEARNING_RATE * error, value, r);
    Associates(LEARNING_RATE * error, r, value);
    Associates(LEARNING_RATE, error, r);
    Associates(LEARNING_RATE, r, error);
  }

  lemma GainIsShare(rate: real, m: real, short: real, gain: real)
    requires m > 0.0 && rate > 0.0 && gain == rate / m * short
    ensures gain * m == rate * short
    ensures (short > 0.0 ==> gain > 0.0) && (short < 0.0 ==> gain < 0.0)
  {
    Divided(0.0, rate, m);
    if short > 0.0 {
      ProductPositive(rate / m, short);
    } else if short < 0.0 {
      ProductNegative(short, rate / m);
    }
    assert rate / m * m == rate;
    Associates(rate / m, short, m);
    Associates(rate / m, m, short);
  }

  /**
   One sample adds a multiple of its row to the weights: the gain is positive when the cell is to be
   marked and negative when it is not, and n times it is the learning rate times what the prediction
   fell short of the target.
   */
  lemma NudgedMoves(sigma: real -> real, weights: seq<real>, sample: Sample, n: nat) returns (gain: real)
    requires Sigmoid(sigma) && n > 0 && |weights| == |sample.row|
    ensures Moved(weights, Nudged(sigma, weights, sample, n), sample.row, gain)
    ensures (sample.target == 1 ==> gain > 0.0) && (sample.target == 0 ==> gain < 0.0)
    ensures gain * n as real == 4.0 * (sample.target as real - Predict(sigma, weights, sample.row))
  {
    var error := Predict(sigma, weights, sample.row) - sample.target as real;
    gain := LEARNING_RATE / n as real * -error;
    forall i | 0 <= i < |weights|
      ensures Nudged(sigma, weights, sample, n)[i] == weights[i] + gain * sample.row[i]
    {
      StepIsShare(weights[i], error, sample.row[i], n as real, gain);
    }
    GainIsShare(LEARNING_RATE, n as real, -error, gain);
  }

  /**
   What one sample does to the score of any row: it moves by the gain times how alike the two rows
   are, so of a row with nothing in common with the sample's not at all.
   */
  lemma ScoreMoves(sigma: real -> real, weights: seq<real>, sample: Sample, n: nat, other: seq<real>)
    returns (gain: real)
    requires Sigmoid(sigma) && n > 0 && |weights| == |sample.row| == |other|
    ensures (sample.target == 1 ==> gain > 0.0) && (sample.target == 0 ==> gain < 0.0)
    ensures gain * n as real == 4.0 * (sample.target as real - Predict(sigma, weights, sample.row))
    ensures Dot(Nudged(sigma, weights, sample, n), other) == Dot(weights, other) + gain * Dot(sample.row, other)
  {
    gain := NudgedMoves(sigma, weights, sample, n);
    DotMoved(weights, Nudged(sigma, weights, sample, n), sample.row, other, gain);
  }

  lemma ScoreRises(before: seq<real>, after: seq<real>, row: seq<real>, gain: real)
    requires Moved(before, after, row, gain) && NonZero(row)
    ensures gain > 0.0 ==> Dot(after, row) > Dot(before, row)
    ensures gain < 0.0 ==> Dot(after, row) < Dot(before, row)
  {
    DotMoved(before, after, row, row, gain);
    SquarePositive(row, row, |row|);
    MovesBy(Dot(before, row), Dot(after, row), gain, Dot(row, row));
  }

  /** Learning from a sample raises its score when it is to be marked, and lowers it when it is not. */
  lemma LearnsTowards(sigma: real -> real, weights: seq<real>, sample: Sample, n: nat)
    requires Sigmoid(sigma) && n > 0 && |weights| == |sample.row| && NonZero(sample.row)
    ensures var after := Nudged(sigma, weights, sample, n);
      && (sample.target == 1 ==> Dot(after, sample.row) > Dot(weights, sample.row))
      && (sample.target == 0 ==> Dot(after, sample.row) < Dot(weights, sample.row))
  {
    var gain := NudgedMoves(sigma, weights, sample, n);
    ScoreRises(weights, Nudged(sigma, weights, sample, n), sample.row, gain);
  }

  /** A logistic function that, as the real one does, rises with the score. */
  ghost predicate Rising(sigma: real -> real) {
    forall x, y :: x <= y ==> sigma(x) <= sigma(y)
  }

  lemma PredictRises(sigma: real -> real, weights: seq<real>, after: seq<real>, row: seq<real>)
    requires Rising(sigma) && |weights| == |after| == |row| && Dot(weights, row) <= Dot(after, row)
    ensures Predict(sigma, weights, row) <= Predict(sigma, after, row)
  {
    assert Clamped(Dot(weights, row)) <= Clamped(Dot(after, row));
  }

  /** So the error made on a sample is never larger after learning from it than it was before. */
  lemma ErrorFalls(sigma: real -> real, weights: seq<real>, sample: Sample, n: nat)
    requires Sigmoid(sigma) && Rising(sigma) && n > 0 && |weights| == |sample.row|
    requires sample.target == 0 || sample.target == 1
    ensures AbsReal(Predict(sigma, Nudged(sigma, weights, sample, n), sample.row) - sample.target as real)
         <= AbsReal(Predict(sigma, weights, sample.row) - sample.target as real)
  {
    var after := Nudged(sigma, weights, sample, n);
    if !NonZero(sample.row) {
      var gain := ScoreMoves(sigma, weights, sample, n, sample.row);
      ZeroRow(sample.row, |sample.row|);
      assert gain * 0.0 == 0.0;
      PredictRises(sigma, weights, after, sample.row);
      PredictRises(sigma, after, weights, sample.row);
    } else {
      LearnsTowards(sigma, weights, sample, n);
      if sample.target == 1 {
        PredictRises(sigma, weights, after, sample.row);
      } else {
        PredictRises(sigma, after, weights, sample.row);
      }
    }
  }

  lemma {:induction false} ZeroRow(row: seq<real>, k: nat)
    requires !NonZero(row) && k <= |row|
    ensures DotTo(row, row, k) == 0.0
  {
    if k > 0 {
      ZeroRow(row, k - 1);
      assert row[k - 1] == 0.0;
    }
  }

  /** One sample moves every weight in place, and the sample's own score towards its target. */
  method Learn(sigma: real -> real, weights: array<real>, sample: Sample, n: nat)
    requires n > 0 && weights.Length == |sample.row|
    modifies weights
    ensures weights[..] == Nudged(sigma, old(weights[..]), sample, n)
    ensures Sigmoid(sigma) && NonZero(sample.row) && sample.target == 1 ==>
      Dot(weights[..], sample.row) > Dot(old(weights[..]), sample.row)
    ensures Sigmoid(sigma) && NonZero(sample.row) && sample.target == 0 ==>
      Dot(weights[..], sample.row) < Dot(old(weights[..]), sample.row)
  {
    var error := Predict(sigma, weights[..], sample.row) - sample.target as real;
    for index := 0 to |sample.row|
      invariant forall i :: 0 <= i < index ==> weights[i] == old(weights[i]) - Step(error, sample.row[i], n)
      invariant forall i :: index <= i < weights.Length ==> weights[i] == old(weights[i])
    {
      weights[index] := weights[index] - Step(error, sample.row[index], n);
    }
    assert weights[..] == Nudged(sigma, old(weights[..]), sample, n);
    if Sigmoid(sigma) && NonZero(sample.row) {
      LearnsTowards(sigma, old(weights[..]), sample, n);
    }
  }

  /** The weights the next sample is learned from: those of the sample before, or of the pass before. */
  function Before(sigma: real -> real, samples: seq<Sample>, epochs: nat, j: nat): (w: seq<real>)
    requires Trainable(samples) && j < |samples|
    ensures |w| == 8
  {
    if j == 0 && epochs > 0 then Trained(sigma, samples, epochs - 1, |samples|) else Trained(sigma, samples, epochs, j)
  }

  /** At every sample of every pass training moves that sample's score towards its target. */
  lemma TrainsTowards(sigma: real -> real, samples: seq<Sample>, epochs: nat, j: nat)
    requires Sigmoid(sigma) && Trainable(samples) && j < |samples| && NonZero(samples[j].row)
    ensures var before, after := Before(sigma, samples, epochs, j), Trained(sigma, samples, epochs, j + 1);
      && (samples[j].target == 1 ==> Dot(after, samples[j].row) > Dot(before, samples[j].row))
      && (samples[j].target == 0 ==> Dot(after, samples[j].row) < Dot(before, samples[j].row))
  {
    LearnsTowards(sigma, Before(sigma, samples, epochs, j), samples[j], |samples|);
  }

  method Train(sigma: real -> real, samples: seq<Sample>, epochs: nat) returns (weights: array<real>)
    requires Trainable(samples)
    ensures fresh(weights) && weights[..] == Trained(sigma, samples, epochs, 0)
  {
    weights := new real[8](_ => 0.0);
    for epoch := 0 to epochs
      invariant weights[..] == Trained(sigma, samples, epoch, 0)
    {
      for j := 0 to |samples|
        invariant weights[..] == Trained(sigma, samples, epoch, j)
      {
        Learn(sigma, weights, samples[j], |samples|);
      }
    }
  }

  // ── How far the weights can get ────────────────────────────────────────────

  lemma ErrorShare(error: real, value: real)
    requires -1.0 < error < 1.0 && 0.0 <= value <= 1.0
    ensures -1.0 < error * value < 1.0
  {
    if value == 0.0 {
      assert error * value == 0.0;
    } else {
      ProductPositive(1.0 - error, value);
      ProductPositive(1.0 + error, value);
      var share := error * value;
      assert (1.0 - error) * value == value - share && (1.0 + error) * value == value + share;
    }
  }

  lemma StepIsSmall(error: real, value: real, n: nat)
    requires n > 0 && -1.0 < error < 1.0 && 0.0 <= value <= 1.0
    ensures AbsReal(Step(error, value, n)) < LEARNING_RATE / n as real
  {
    ErrorShare(error, value);
    var moved := LEARNING_RATE * error * value;
    var share := error * value;
    assert moved == 4.0 * error * value == 4.0 * share;
    Divided(moved, LEARNING_RATE, n as real);
    Divided(-LEARNING_RATE, moved, n as real);
    assert (-LEARNING_RATE) / n as real == -(LEARNING_RATE / n as real);
  }

  function Share(epochs: nat, j: nat, n: nat): real
    requires n > 0
  {
    LEARNING_RATE * epochs as real + LEARNING_RATE / n as real * j as real
  }

  lemma Shares(epochs: nat, j: nat, n: nat)
    requires n > 0
    ensures Share(epochs, j + 1, n) == Share(epochs, j, n) + LEARNING_RATE / n as real
    ensures Share(epochs, n, n) == Share(epochs + 1, 0, n)
  {
    assert LEARNING_RATE / n as real * n as real == LEARNING_RATE;
  }

  lemma {:induction false} WeightsWithin(sigma: real -> real, samples: seq<Sample>, epochs: nat, j: nat, i: nat)
    requires Sigmoid(sigma) && Trainable(samples) && j <= |samples| && i < 8
    ensures AbsReal(Trained(sigma, samples, epochs, j)[i]) <= Share(epochs, j, |samples|)
    ensures epochs + j > 0 ==> AbsReal(Trained(sigma, samples, epochs, j)[i]) < Share(epochs, j, |samples|)
    decreases epochs, j
  {
    var n := |samples|;
    if j > 0 {
      WeightsWithin(sigma, samples, epochs, j - 1, i);
      Shares(epochs, j - 1, n);
      var before, sample := Trained(sigma, samples, epochs, j - 1), samples[j - 1];
      var error := Predict(sigma, before, sample.row) - sample.target as real;
      StepIsSmall(error, sample.row[i], n);
    } else if epochs > 0 {
      WeightsWithin(sigma, samples, epochs - 1, n, i);
      Shares(epochs - 1, 0, n);
    }
  }

  /** After k passes no weight is beyond 4k, for any training set; after the first pass, not even at it. */
  lemma WeightsBounded(sigma: real -> real, samples: seq<Sample>, epochs: nat, i: nat)
    requires Sigmoid(sigma) && Trainable(samples) && i < 8
    ensures AbsReal(Trained(sigma, samples, epochs, 0)[i]) <= 4.0 * epochs as real
    ensures epochs > 0 ==> AbsReal(Trained(sigma, samples, epochs, 0)[i]) < 4.0 * epochs as real
  {
    WeightsWithin(sigma, samples, epochs, 0, i);
    assert LEARNING_RATE / |samples| as real * 0.0 == 0.0;
  }
}
