/**
 * The one-dimensional Kalman filter that smooths each coordinate axis
 * (script.js lines 1-21), modelled exactly over `real`.
 *
 * The pure functions below are the specification of one `update` call;
 * the class `KalmanFilter` is the mutable object of the source, whose
 * `Update` method is proved against them.
 */
module Kalman {

  /** The part of a filter that `update` changes and later updates read. */
  datatype Estimator = Estimator(estimate: real, error: real)

  /** Step 1 of `update`: the error grows by the process noise. */
  function Predicted(error: real, processNoise: real): real
  {
    error + processNoise
  }

  /** Step 2 of `update`: the gain, never 1 and never negative. */
  function Gain(predicted: real, measurementNoise: real): (k: real)
    requires predicted >= 0.0 && measurementNoise > 0.0
    ensures 0.0 <= k < 1.0
    ensures k * (predicted + measurementNoise) == predicted
    ensures k == 0.0 <==> predicted == 0.0
  {
    predicted / (predicted + measurementNoise)
  }

  /** Step 3 of `update`: move the estimate toward the measurement by the gain. */
  function Blend(estimate: real, k: real, measurement: real): real
  {
    estimate + k * (measurement - estimate)
  }

  /** Step 4 of `update`: shrink the error by the part the gain took. */
  function Deflate(predicted: real, k: real): real
  {
    predicted * (1.0 - k)
  }

  /** The estimator after one `update(measurement)` with the given noises. */
  function Next(s: Estimator, processNoise: real, measurementNoise: real, measurement: real): Estimator
    requires s.error >= 0.0 && processNoise >= 0.0 && measurementNoise > 0.0
  {
    var p := Predicted(s.error, processNoise);
    var k := Gain(p, measurementNoise);
    Estimator(Blend(s.estimate, k, measurement), Deflate(p, k))
  }

  /** The estimate lies between two values, whichever order they come in. */
  predicate Between(x: real, a: real, b: real)
  {
    (a <= x <= b) || (b <= x <= a)
  }

  function Abs(x: real): real
  {
    if x < 0.0 then -x else x
  }

  /** A real that times `c` gives `b` is `b / c`. */
  lemma QuotientUnique(a: real, b: real, c: real)
    requires c > 0.0 && a * c == b
    ensures a == b / c
  {
    assert (a - b / c) * c == 0.0;
  }

  /** Scaling by a non-negative factor keeps the sign and scales the magnitude. */
  lemma Scale(c: real, e: real)
    requires c >= 0.0
    ensures e >= 0.0 ==> c * e >= 0.0
    ensures e <= 0.0 ==> c * e <= 0.0
    ensures Abs(c * e) == c * Abs(e)
    ensures c > 0.0 && e != 0.0 ==> c * Abs(e) > 0.0
  {
    if e < 0.0 {
      assert c * e == -(c * -e);
    }
  }

  /**
   * After an update the error is `P'·R/(P'+R)` where `P'` is the
   * predicted error: never negative and strictly below the measurement
   * noise.
   */
  lemma ErrorAfterUpdate(s: Estimator, processNoise: real, measurementNoise: real, measurement: real)
    requires s.error >= 0.0 && processNoise >= 0.0 && measurementNoise > 0.0
    ensures var p := s.error + processNoise;
            Next(s, processNoise, measurementNoise, measurement).error
              == p * measurementNoise / (p + measurementNoise)
    ensures 0.0 <= Next(s, processNoise, measurementNoise, measurement).error < measurementNoise
  {
    var p := s.error + processNoise;
    var r := measurementNoise;
    var k := Gain(p, r);
    assert (1.0 - k) * (p + r) == r;
    QuotientUnique(1.0 - k, r, p + r);
    assert p * (1.0 - k) == p * r / (p + r);
    assert p * r < (p + r) * r;
    assert p * r / (p + r) < r;
  }

  /**
   * The new estimate is a convex combination of the old estimate and the
   * measurement, so it lies between them; a measurement equal to the
   * estimate leaves it unchanged.
   */
  lemma EstimateBetween(s: Estimator, processNoise: real, measurementNoise: real, measurement: real)
    requires s.error >= 0.0 && processNoise >= 0.0 && measurementNoise > 0.0
    ensures var n := Next(s, processNoise, measurementNoise, measurement);
            Between(n.estimate, s.estimate, measurement)
    ensures measurement == s.estimate ==>
              Next(s, processNoise, measurementNoise, measurement).estimate == s.estimate
  {
    var k := Gain(s.error + processNoise, measurementNoise);
    var d := measurement - s.estimate;
    var x := Next(s, processNoise, measurementNoise, measurement).estimate;
    assert x == s.estimate + k * d;
    assert d - k * d == (1.0 - k) * d;
    Scale(k, d);
    Scale(1.0 - k, d);
    if d >= 0.0 {
      assert s.estimate <= x <= measurement;
    } else {
      assert measurement <= x <= s.estimate;
    }
  }

  /**
   * The distance to the measurement shrinks by the factor `1 - k`: it
   * never grows, and it strictly shrinks whenever the estimate is off and
   * the predicted error is positive.
   */
  lemma MovesToward(s: Estimator, processNoise: real, measurementNoise: real, measurement: real)
    requires s.error >= 0.0 && processNoise >= 0.0 && measurementNoise > 0.0
    ensures var n := Next(s, processNoise, measurementNoise, measurement);
            var k := Gain(s.error + processNoise, measurementNoise);
            Abs(n.estimate - measurement) == (1.0 - k) * Abs(s.estimate - measurement)
    ensures Abs(Next(s, processNoise, measurementNoise, measurement).estimate - measurement)
              <= Abs(s.estimate - measurement)
    ensures s.error + processNoise > 0.0 && s.estimate != measurement ==>
              Abs(Next(s, processNoise, measurementNoise, measurement).estimate - measurement)
                < Abs(s.estimate - measurement)
  {
    var k := Gain(s.error + processNoise, measurementNoise);
    var e := s.estimate - measurement;
    var n := Next(s, processNoise, measurementNoise, measurement);
    assert n.estimate - measurement == (1.0 - k) * e;
    Scale(1.0 - k, e);
    Scale(k, e);
    assert Abs(e) - (1.0 - k) * Abs(e) == k * Abs(e);
  }

  /** With no process noise, an update on a positive error strictly lowers it. */
  lemma ErrorShrinksWithoutProcessNoise(s: Estimator, measurementNoise: real, measurement: real)
    requires s.error > 0.0 && measurementNoise > 0.0
    ensures Next(s, 0.0, measurementNoise, measurement).error < s.error
  {
    ErrorAfterUpdate(s, 0.0, measurementNoise, measurement);
    var p := s.error;
    var r := measurementNoise;
    assert p * r < p * (p + r);
    assert p * r / (p + r) < p;
  }

  /** The estimator after `n` updates that all read the same measurement. */
  function Repeat(s: Estimator, processNoise: real, measurementNoise: real, measurement: real, n: nat): (t: Estimator)
    requires s.error >= 0.0 && processNoise >= 0.0 && measurementNoise > 0.0
    ensures t.error >= 0.0
    decreases n
  {
    if n == 0 then s
    else
      var prev := Repeat(s, processNoise, measurementNoise, measurement, n - 1);
      ErrorAfterUpdate(prev, processNoise, measurementNoise, measurement);
      Next(prev, processNoise, measurementNoise, measurement)
  }

  /**
   * Fed a constant measurement, the estimate approaches it monotonically:
   * it never crosses it, and each further update is no farther from it.
   */
  lemma {:induction false} ConstantInputApproaches(s: Estimator, processNoise: real, measurementNoise: real, measurement: real, n: nat)
    requires s.error >= 0.0 && processNoise >= 0.0 && measurementNoise > 0.0
    ensures var a := Repeat(s, processNoise, measurementNoise, measurement, n);
            var b := Repeat(s, processNoise, measurementNoise, measurement, n + 1);
            Between(b.estimate, a.estimate, measurement) &&
            Abs(b.estimate - measurement) <= Abs(a.estimate - measurement)
    ensures Abs(Repeat(s, processNoise, measurementNoise, measurement, n).estimate - measurement)
              <= Abs(s.estimate - measurement)
    decreases n
  {
    var a := Repeat(s, processNoise, measurementNoise, measurement, n);
    EstimateBetween(a, processNoise, measurementNoise, measurement);
    MovesToward(a, processNoise, measurementNoise, measurement);
    if n > 0 {
      ConstantInputApproaches(s, processNoise, measurementNoise, measurement, n - 1);
    }
  }

  /** The filter object of the source: two fixed noises, a mutable state. */
  class KalmanFilter {
    const processNoise: real
    const measurementNoise: real
    var estimateError: real
    var estimate: real
    var kalmanGain: real

    /** What `update` needs to be well defined, and what it keeps. */
    ghost predicate Valid()
      reads this
    {
      processNoise >= 0.0 && measurementNoise > 0.0 && estimateError >= 0.0 &&
      0.0 <= kalmanGain < 1.0
    }

    /** The part of the state that `update` reads and writes. */
    function State(): Estimator
      reads this
    {
      Estimator(estimate, estimateError)
    }

    constructor (processNoise: real := 1.0, measurementNoise: real := 1.0,
                 estimateError: real := 1.0, initialEstimate: real := 0.0)
      requires processNoise >= 0.0 && measurementNoise > 0.0 && estimateError >= 0.0
      ensures Valid()
      ensures this.processNoise == processNoise && this.measurementNoise == measurementNoise
      ensures State() == Estimator(initialEstimate, estimateError) && kalmanGain == 0.0
    {
      this.processNoise := processNoise;
      this.measurementNoise := measurementNoise;
      this.estimateError := estimateError;
      this.estimate := initialEstimate;
      this.kalmanGain := 0.0;
    }

    /** One filter step; returns the new estimate. */
    method Update(measurement: real) returns (result: real)
      requires Valid()
      modifies this
      ensures Valid()
      ensures State() == Next(old(State()), processNoise, measurementNoise, measurement)
      ensures kalmanGain == Gain(old(estimateError) + processNoise, measurementNoise)
      ensures result == estimate
      ensures estimateError < measurementNoise
      ensures Between(estimate, old(estimate), measurement)
    {
      ghost var before := State();
      estimateError := estimateError + processNoise;
      kalmanGain := Gain(estimateError, measurementNoise);
      estimate := estimate + kalmanGain * (measurement - estimate);
      estimateError := estimateError * (1.0 - kalmanGain);
      result := estimate;
      ErrorAfterUpdate(before, processNoise, measurementNoise, measurement);
      EstimateBetween(before, processNoise, measurementNoise, measurement);
    }
  }
}
