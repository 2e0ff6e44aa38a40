/** The PID controller with its derivative filter and clamps, over reals. */
module Pid {
  import opened Reals

  datatype Params = Params(kp: real, ki: real, kd: real, rate: real, tau: real, iLimit: real, oLimit: real)

  datatype Memory = Memory(lastError: real, integral: real, filtered: real)

  const FRESH: Memory := Memory(0.0, 0.0, 0.0)

  function Clamp(x: real, limit: real): real {
    if x < -limit then -limit else if x > limit then limit else x
  }

  function Gain(gain: real, x: real): real {
    gain * x
  }

  function RawDerivative(p: Params, m: Memory, error: real): real {
    (error - m.lastError) * p.rate
  }

  /** `dt / (tau + dt)` */
  function Alpha(p: Params): real
    requires p.rate > 0.0 && p.tau >= 0.0
  {
    var dt := 1.0 / p.rate;
    assert dt > 0.0;
    dt / (p.tau + dt)
  }

  function Mix(a: real, b: real, alpha: real): real {
    Gain(a, 1.0 - alpha) + Gain(b, alpha)
  }

  function Integrated(p: Params, m: Memory, error: real): real
    requires p.rate > 0.0
  {
    var sum := m.integral + error * (1.0 / p.rate);
    if p.iLimit > 0.0 then Clamp(sum, p.iLimit) else sum
  }

  function Next(p: Params, m: Memory, error: real): Memory
    requires p.rate > 0.0
  {
    var raw := RawDerivative(p, m, error);
    Memory(error, Integrated(p, m, error), if p.tau > 0.0 then Mix(m.filtered, raw, Alpha(p)) else raw)
  }

  function Output(p: Params, m: Memory, error: real): real
    requires p.rate > 0.0
  {
    var n := Next(p, m, error);
    var sum := Gain(p.kp, error) + Gain(p.kd, n.filtered) + Gain(p.ki, n.integral);
    if p.oLimit > 0.0 then Clamp(sum, p.oLimit) else sum
  }

  class Pid {
    const params: Params
    var lastError: real
    var integral: real
    var filteredDerivative: real

    ghost function Value(): Memory
      reads this
    {
      Memory(lastError, integral, filteredDerivative)
    }

    /** `pi` stands for the constant M_PI. */
    constructor (kp: real, ki: real, kd: real, rate: real, cutoff: real, iLimit: real, oLimit: real, pi: real)
      requires rate > 0.0 && pi > 0.0
      ensures Value() == FRESH
      ensures params == Params(kp, ki, kd, rate, params.tau, iLimit, oLimit)
      ensures if cutoff > 0.0 then params.tau > 0.0 && params.tau * (2.0 * pi * cutoff) == 1.0 else params.tau == 0.0
    {
      var tau := 0.0;
      if cutoff > 0.0 {
        assert 2.0 * pi * cutoff > 0.0;
        tau := 1.0 / (2.0 * pi * cutoff);
      }
      params := Params(kp, ki, kd, rate, tau, iLimit, oLimit);
      lastError, integral, filteredDerivative := 0.0, 0.0, 0.0;
    }

    method Update(error: real) returns (output: real)
      requires params.rate > 0.0
      modifies this
      ensures Value() == Next(params, old(Value()), error)
      ensures output == Output(params, old(Value()), error)
      ensures params.oLimit > 0.0 ==> -params.oLimit <= output <= params.oLimit
    {
      output := Gain(params.kp, error);
      var raw := RawDerivative(params, Memory(lastError, integral, filteredDerivative), error);
      var sum := Integrated(params, Memory(lastError, integral, filteredDerivative), error);
      lastError := error;
      if params.tau > 0.0 {
        filteredDerivative := Mix(filteredDerivative, raw, Alpha(params));
      } else {
        filteredDerivative := raw;
      }
      output := output + Gain(params.kd, filteredDerivative);
      integral := sum;
      output := output + Gain(params.ki, integral);
      if params.oLimit > 0.0 {
        output := Clamp(output, params.oLimit);
      }
    }

    method Reset()
      modifies this
      ensures Value() == FRESH
    {
      lastError, integral, filteredDerivative := 0.0, 0.0, 0.0;
    }
  }

  // ---------------------------------------------------------------- any error history

  /** The memory after a history of errors, from memory `m`. */
  function Run(p: Params, m: Memory, errors: seq<real>): Memory
    requires p.rate > 0.0
  {
    if errors == [] then m else Next(p, Run(p, m, errors[..|errors| - 1]), errors[|errors| - 1])
  }

  lemma RunPush(p: Params, m: Memory, errors: seq<real>, i: nat)
    requires p.rate > 0.0 && i < |errors|
    ensures Run(p, m, errors[..i + 1]) == Next(p, Run(p, m, errors[..i]), errors[i])
  {
    assert errors[..i + 1][..i] == errors[..i];
  }

  /** The largest raw derivative of the history, in absolute value. */
  function LargestRaw(p: Params, errors: seq<real>): real
    requires p.rate > 0.0
  {
    if errors == [] then 0.0
    else
      var before := LargestRaw(p, errors[..|errors| - 1]);
      var raw := Abs(RawDerivative(p, Run(p, FRESH, errors[..|errors| - 1]), errors[|errors| - 1]));
      if raw > before then raw else before
  }

  lemma AlphaRange(p: Params)
    requires p.rate > 0.0 && p.tau >= 0.0
    ensures 0.0 < Alpha(p) <= 1.0
  {
    var dt := 1.0 / p.rate;
    assert dt > 0.0;
    RatioRange(dt, p.tau + dt);
  }

  lemma RatioRange(x: real, y: real)
    requires 0.0 < x <= y
    ensures 0.0 < x / y <= 1.0
  {
  }

  lemma MixBound(a: real, b: real, alpha: real, bound: real)
    requires 0.0 <= alpha <= 1.0 && Abs(a) <= bound && Abs(b) <= bound
    ensures Abs(Mix(a, b, alpha)) <= bound
  {
    Weighted(a, 1.0 - alpha, bound);
    Weighted(b, alpha, bound);
    Shares(bound, alpha);
  }

  lemma Shares(x: real, alpha: real)
    ensures Gain(x, 1.0 - alpha) + Gain(x, alpha) == x
  {
  }

  lemma Weighted(a: real, w: real, bound: real)
    requires w >= 0.0 && Abs(a) <= bound
    ensures -Gain(bound, w) <= Gain(a, w) <= Gain(bound, w)
  {
    Product(bound - a, w);
    Product(bound + a, w);
  }

  /** For every error history: the integral stays inside its limit, the filtered derivative never exceeds the largest
      raw derivative so far, and the next output stays inside its limit. */
  lemma {:induction false} RunBounded(p: Params, errors: seq<real>, error: real)
    requires p.rate > 0.0 && p.tau >= 0.0
    ensures p.iLimit > 0.0 ==> Abs(Run(p, FRESH, errors).integral) <= p.iLimit
    ensures Abs(Run(p, FRESH, errors).filtered) <= LargestRaw(p, errors)
    ensures p.oLimit > 0.0 ==> Abs(Output(p, Run(p, FRESH, errors), error)) <= p.oLimit
  {
    if errors != [] {
      var init := errors[..|errors| - 1];
      RunBounded(p, init, error);
      AlphaRange(p);
      var m, e := Run(p, FRESH, init), errors[|errors| - 1];
      MixBound(m.filtered, RawDerivative(p, m, e), Alpha(p), LargestRaw(p, errors));
    }
  }

  // ---------------------------------------------------------------- what the answer is

  /** `x` held inside [-limit, limit]; a limit that is not positive does not hold anything. */
  function Held(x: real, limit: real): real {
    if limit > 0.0 && x > limit then limit else if limit > 0.0 && x < -limit then -limit else x
  }

  function Sum(errors: seq<real>): real {
    if errors == [] then 0.0 else Sum(errors[..|errors| - 1]) + errors[|errors| - 1]
  }

  /** The error before the last one; zero before the first. */
  function Previous(errors: seq<real>): real {
    if |errors| < 2 then 0.0 else errors[|errors| - 2]
  }

  function Weighted3(kp: real, e: real, kd: real, f: real, ki: real, i: real): real {
    kp * e + kd * f + ki * i
  }

  /** The answer to an error after a history, in terms of the memory after it: the three gains times error, filtered
      derivative and integral, held inside the output limit. */
  lemma AnswerIs(p: Params, errors: seq<real>, error: real)
    requires p.rate > 0.0
    ensures var m := Run(p, FRESH, errors + [error]);
            Output(p, Run(p, FRESH, errors), error) == Held(Weighted3(p.kp, error, p.kd, m.filtered, p.ki, m.integral), p.oLimit)
  {
    assert (errors + [error])[..|errors|] == errors;
    OutputIs(p, Run(p, FRESH, errors), error);
  }

  lemma OutputIs(p: Params, m: Memory, error: real)
    requires p.rate > 0.0
    ensures var n := Next(p, m, error);
            Output(p, m, error) == Held(Weighted3(p.kp, error, p.kd, n.filtered, p.ki, n.integral), p.oLimit)
  {
    var n := Next(p, m, error);
    WeightedSum(p.kp, error, p.kd, n.filtered, p.ki, n.integral);
  }

  lemma WeightedSum(kp: real, e: real, kd: real, f: real, ki: real, i: real)
    ensures Gain(kp, e) + Gain(kd, f) + Gain(ki, i) == Weighted3(kp, e, kd, f, ki, i)
  {
  }

  /** The last error is remembered. */
  lemma LastRemembered(p: Params, errors: seq<real>)
    requires p.rate > 0.0
    ensures Run(p, FRESH, errors).lastError == if errors == [] then 0.0 else errors[|errors| - 1]
  {
  }

  /** The integral moves by the error divided by the rate, held inside its limit. */
  lemma IntegralStep(p: Params, m: Memory, error: real)
    requires p.rate > 0.0
    ensures Next(p, m, error).integral == Held(m.integral + error / p.rate, p.iLimit)
  {
    assert error * (1.0 / p.rate) == error / p.rate;
  }

  /** As long as the limit is never reached, the integral is the sum of the errors divided by the rate. */
  lemma {:induction false} IntegralIsSum(p: Params, errors: seq<real>)
    requires p.rate > 0.0
    requires p.iLimit > 0.0 ==> forall n :: 0 <= n <= |errors| ==> Abs(Sum(errors[..n]) / p.rate) <= p.iLimit
    ensures Run(p, FRESH, errors).integral == Sum(errors) / p.rate
  {
    assert errors[..|errors|] == errors;
    if errors != [] {
      var init, last := errors[..|errors| - 1], errors[|errors| - 1];
      forall n | 0 <= n <= |init| && p.iLimit > 0.0 ensures Abs(Sum(init[..n]) / p.rate) <= p.iLimit {
        assert init[..n] == errors[..n];
      }
      IntegralIsSum(p, init);
      IntegralStep(p, Run(p, FRESH, init), last);
      Fractions(Sum(init), last, p.rate);
    }
  }

  lemma Fractions(x: real, y: real, d: real)
    requires d > 0.0
    ensures x / d + y / d == (x + y) / d
  {
  }

  /** Without a cutoff the derivative is the last difference times the rate. */
  lemma PlainDerivative(p: Params, errors: seq<real>)
    requires p.rate > 0.0 && p.tau == 0.0 && errors != []
    ensures Run(p, FRESH, errors).filtered == (errors[|errors| - 1] - Previous(errors)) * p.rate
  {
    LastRemembered(p, errors[..|errors| - 1]);
  }

  /** `g` is `f` moved towards `raw` by the part `dt / whole` of the distance. */
  predicate Closes(f: real, g: real, raw: real, dt: real, whole: real) {
    (g - f) * whole == (raw - f) * dt
  }

  /** With a cutoff, whatever the controller remembers, it closes the part dt / (tau + dt) of its distance to that. */
  lemma FilteredDerivative(p: Params, m: Memory, error: real)
    requires p.rate > 0.0 && p.tau > 0.0
    ensures Closes(m.filtered, Next(p, m, error).filtered, (error - m.lastError) * p.rate, 1.0 / p.rate, p.tau + 1.0 / p.rate)
  {
    var dt := 1.0 / p.rate;
    assert dt > 0.0;
    PartOf(m.filtered, RawDerivative(p, m, error), dt, p.tau + dt);
  }

  lemma PartOf(f: real, raw: real, dt: real, whole: real)
    requires whole > 0.0
    ensures Closes(f, Mix(f, raw, dt / whole), raw, dt, whole)
  {
    var a := dt / whole;
    assert a * whole == dt;
    assert Mix(f, raw, a) - f == a * (raw - f);
    assert (a * (raw - f)) * whole == (raw - f) * (a * whole);
  }

  /** A proportional controller, whatever it remembers: the answer is the gain times the error, held inside the limit. */
  lemma Proportional(p: Params, m: Memory, error: real)
    requires p.rate > 0.0 && p.ki == 0.0 && p.kd == 0.0
    ensures Output(p, m, error) == Held(p.kp * error, p.oLimit)
  {
    var n := Next(p, m, error);
    assert Gain(p.kd, n.filtered) == 0.0 && Gain(p.ki, n.integral) == 0.0;
  }

  /** With a positive gain it has the sign of the error. */
  lemma PointsTheSameWay(p: Params, m: Memory, error: real)
    requires p.rate > 0.0 && p.ki == 0.0 && p.kd == 0.0 && p.kp > 0.0
    ensures error > 0.0 ==> Output(p, m, error) > 0.0
    ensures error < 0.0 ==> Output(p, m, error) < 0.0
    ensures error == 0.0 ==> Output(p, m, error) == 0.0
  {
    Proportional(p, m, error);
    Signs(p.kp, error);
  }

  lemma Signs(k: real, x: real)
    requires k > 0.0
    ensures x > 0.0 ==> k * x > 0.0
    ensures x < 0.0 ==> k * x < 0.0
  {
  }
}
