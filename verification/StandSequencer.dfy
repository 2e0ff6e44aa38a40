/** The stand-up sequencers: chained phase accumulators, each advanced once per tick while its turn lasts.

    The tick that completes a phase already gives the next one its first increment, so consecutive phases overlap
    by one tick. Arithmetic is exact.
 */
module StandSequencer {
  import opened LowCommand
  import opened Reals

  // ---------------------------------------------------------------- one accumulator

  /** One increment of a phase accumulator, stopped at one. */
  function Bump(p: real, d: nat): real
    requires d > 0
  {
    var q := p + 1.0 / d as real;
    if q > 1.0 then 1.0 else q
  }

  /** An accumulator after `j` increments. */
  function Progress(j: int, d: nat): real
    requires d > 0
  {
    if j <= 0 then 0.0 else if j >= d then 1.0 else j as real / d as real
  }

  lemma Fraction(j: int, d: nat)
    requires d > 0
    ensures 0 < j < d ==> 0.0 < j as real / d as real < 1.0
    ensures (j + 1) as real / d as real == j as real / d as real + 1.0 / d as real
    ensures d as real / d as real == 1.0
  {
  }

  lemma BumpProgress(j: nat, d: nat)
    requires d > 0
    ensures Bump(Progress(j, d), d) == Progress(j + 1, d)
  {
    Fraction(j, d);
    Fraction(d - 1, d);
    if j >= d {
      assert 1.0 / d as real > 0.0;
    }
  }

  // ---------------------------------------------------------------- a chain of phases

  type Durations = ds: seq<nat> | |ds| > 0 && forall k :: 0 <= k < |ds| ==> ds[k] > 0 witness [1]

  /** The tick after which phase `k` makes progress. */
  function StartTick(ds: Durations, k: nat): nat
    requires k <= |ds|
  {
    if k == 0 then 0 else StartTick(ds, k - 1) + ds[k - 1] - 1
  }

  function Percent(ds: Durations, k: nat, t: nat): real
    requires k < |ds|
  {
    Progress(t - StartTick(ds, k), ds[k])
  }

  lemma PercentRange(ds: Durations, k: nat, t: nat)
    requires k < |ds|
    ensures 0.0 <= Percent(ds, k, t) <= 1.0
    ensures Percent(ds, k, t) > 0.0 <==> t > StartTick(ds, k)
    ensures Percent(ds, k, t) == 1.0 <==> t > StartTick(ds, k + 1)
  {
    Fraction(t - StartTick(ds, k), ds[k]);
  }

  lemma {:induction false} StartMonotone(ds: Durations, j: nat, k: nat)
    requires j <= k <= |ds|
    ensures StartTick(ds, j) <= StartTick(ds, k)
  {
    if j < k {
      StartMonotone(ds, j, k - 1);
    }
  }

  /** A phase has progress exactly when the one before it is complete, and then all earlier ones are. */
  lemma PhasesInOrder(ds: Durations, j: nat, k: nat, t: nat)
    requires j < k < |ds|
    ensures Percent(ds, k, t) > 0.0 <==> Percent(ds, k - 1, t) == 1.0
    ensures Percent(ds, k, t) > 0.0 ==> Percent(ds, j, t) == 1.0
  {
    PercentRange(ds, k, t);
    PercentRange(ds, k - 1, t);
    PercentRange(ds, j, t);
    StartMonotone(ds, j + 1, k);
  }

  /** One tick of the chain: phase `k` is bumped exactly when the phase before it is complete after this tick. */
  lemma NextPercent(ds: Durations, k: nat, t: nat)
    requires k < |ds|
    ensures Percent(ds, k, t + 1) ==
            if k == 0 || Percent(ds, k - 1, t + 1) == 1.0 then Bump(Percent(ds, k, t), ds[k]) else Percent(ds, k, t)
  {
    if k > 0 {
      PercentRange(ds, k - 1, t + 1);
    }
    if t >= StartTick(ds, k) {
      BumpProgress(t - StartTick(ds, k), ds[k]);
    }
  }

  function Sum(ds: seq<nat>): nat {
    if ds == [] then 0 else Sum(ds[..|ds| - 1]) + ds[|ds| - 1]
  }

  lemma {:induction false} StartIsSum(ds: Durations, k: nat)
    requires k <= |ds|
    ensures StartTick(ds, k) + k == Sum(ds[..k])
  {
    if k > 0 {
      StartIsSum(ds, k - 1);
      assert ds[..k][..k - 1] == ds[..k - 1];
    }
  }

  /** The last of n phases completes at tick d1 + ... + dn - (n - 1), not earlier. */
  lemma CompletionTick(ds: Durations, t: nat)
    ensures Percent(ds, |ds| - 1, t) == 1.0 <==> t >= Sum(ds) - (|ds| - 1)
  {
    PercentRange(ds, |ds| - 1, t);
    StartIsSum(ds, |ds|);
    assert ds[..|ds|] == ds;
  }

  // ---------------------------------------------------------------- the commanded pose

  /** Phase k moves from pose k to pose k + 1. */
  type Poses = seq<Joints>

  /** The phase whose command stands at the end of tick `t`: the last one with progress. */
  function ActivePhase(ds: Durations, t: nat, k: nat): (a: nat)
    requires k < |ds|
    ensures a <= k && (t > 0 ==> t > StartTick(ds, a))
    ensures a < k ==> t <= StartTick(ds, a + 1)
  {
    if k == 0 || t > StartTick(ds, k) then k else ActivePhase(ds, t, k - 1)
  }

  function Blend(a: real, b: real, p: real): real {
    (1.0 - p) * a + p * b
  }

  function Lerp(a: Joints, b: Joints, p: real): Joints {
    seq(JOINTS, m requires 0 <= m < JOINTS => Blend(a[m], b[m], p))
  }

  function PoseAt(ds: Durations, ps: Poses, t: nat): Joints
    requires |ps| == |ds| + 1
  {
    var k := ActivePhase(ds, t, |ds| - 1);
    Lerp(ps[k], ps[k + 1], Percent(ds, k, t))
  }

  lemma {:induction false} ActiveIs(ds: Durations, t: nat, k: nat, a: nat)
    requires a <= k < |ds| && (a == 0 || t > StartTick(ds, a)) && forall j :: a < j <= k ==> t <= StartTick(ds, j)
    ensures ActivePhase(ds, t, k) == a
  {
    if a < k {
      ActiveIs(ds, t, k - 1, a);
    }
  }

  predicate Between(x: real, a: real, b: real) {
    a <= x <= b || b <= x <= a
  }

  lemma BlendBetween(a: real, b: real, p: real)
    requires 0.0 <= p <= 1.0
    ensures Between(Blend(a, b, p), a, b)
  {
    assert Blend(a, b, p) == a + p * (b - a);
    if b >= a {
      ScaleBound(p, b - a);
    } else {
      ScaleBound(p, a - b);
      assert p * (b - a) == -(p * (a - b));
    }
  }

  lemma ScaleBound(p: real, x: real)
    requires 0.0 <= p <= 1.0 && 0.0 <= x
    ensures 0.0 <= p * x <= x
  {
    assert p * x + (1.0 - p) * x == x;
    Product(p, x);
    Product(1.0 - p, x);
  }

  /** Every commanded joint lies between the endpoints of the phase that is active. */
  lemma PoseInHull(ds: Durations, ps: Poses, t: nat, m: nat)
    requires |ps| == |ds| + 1 && m < JOINTS
    ensures var k := ActivePhase(ds, t, |ds| - 1);
            Between(PoseAt(ds, ps, t)[m], ps[k][m], ps[k + 1][m])
  {
    var k := ActivePhase(ds, t, |ds| - 1);
    PercentRange(ds, k, t);
    BlendBetween(ps[k][m], ps[k + 1][m], Percent(ds, k, t));
  }

  /** After the completion tick the command is the last pose for ever. */
  lemma HoldsTarget(ds: Durations, ps: Poses, t: nat)
    requires |ps| == |ds| + 1 && t >= Sum(ds) - (|ds| - 1) && t > 0
    ensures PoseAt(ds, ps, t) == ps[|ds|]
  {
    var n := |ds| - 1;
    CompletionTick(ds, t);
    PercentRange(ds, n, t);
    ActiveIs(ds, t, n, n);
    forall m | 0 <= m < JOINTS ensures PoseAt(ds, ps, t)[m] == ps[|ds|][m] {
      assert Blend(ps[n][m], ps[n + 1][m], 1.0) == ps[n + 1][m];
    }
  }

  /** How far joint `m` moves per tick inside phase `k`. */
  function StepSize(ds: Durations, ps: Poses, k: nat, m: nat): real
    requires |ps| == |ds| + 1 && m < JOINTS && k < |ds|
  {
    Abs(ps[k + 1][m] - ps[k][m]) / ds[k] as real
  }

  lemma AbsScale(x: real, d: nat)
    requires d > 0
    ensures Abs(x / d as real) == Abs(x) / d as real && Abs(x) / d as real >= 0.0
  {
  }

  lemma BlendStep(a: real, b: real, j: int, d: nat)
    requires d > 0
    ensures Blend(a, b, (j + 1) as real / d as real) - Blend(a, b, j as real / d as real) == (b - a) / d as real
  {
    Fraction(j, d);
    var x, u := j as real / d as real, 1.0 / d as real;
    assert Blend(a, b, x + u) - Blend(a, b, x) == u * (b - a);
    assert u * (b - a) == (b - a) / d as real;
  }

  lemma ProgressMove(a: real, b: real, j: nat, d: nat)
    requires d > 0
    ensures var move := Blend(a, b, Progress(j + 1, d)) - Blend(a, b, Progress(j, d));
            Abs(move) <= Abs(b - a) / d as real && (j < d ==> move == (b - a) / d as real)
  {
    AbsScale(b - a, d);
    if j < d {
      Fraction(j, d);
      Fraction(d - 1, d);
      BlendStep(a, b, j, d);
      assert Progress(j, d) == j as real / d as real && Progress(j + 1, d) == (j + 1) as real / d as real;
    }
  }

  /** The active phase changes by at most one per tick, and changes at the tick after `StartTick(k + 1)`. */
  lemma ActiveMoves(ds: Durations, t: nat)
    requires forall k :: 0 <= k < |ds| ==> ds[k] >= 2
    ensures var n := |ds| - 1;
            var k, k' := ActivePhase(ds, t, n), ActivePhase(ds, t + 1, n);
            if k < n && t == StartTick(ds, k + 1) then k' == k + 1 else k' == k
  {
    var n := |ds| - 1;
    var k := ActivePhase(ds, t, n);
    var a := if k < n && t == StartTick(ds, k + 1) then k + 1 else k;
    if k > 0 {
      ActiveStarted(ds, t, n);
    }
    forall j | a < j <= n ensures t + 1 <= StartTick(ds, j) {
      StartMonotone(ds, a + 1, j);
    }
    ActiveIs(ds, t + 1, n, a);
  }

  lemma ActiveStarted(ds: Durations, t: nat, k: nat)
    requires k < |ds|
    ensures ActivePhase(ds, t, k) > 0 ==> t > StartTick(ds, ActivePhase(ds, t, k))
  {
  }

  /** Consecutive commands differ, in every joint, by at most the per-tick steps of two adjacent phases. */
  lemma PoseContinuous(ds: Durations, ps: Poses, t: nat, m: nat)
    requires |ps| == |ds| + 1 && m < JOINTS && forall k :: 0 <= k < |ds| ==> ds[k] >= 2
    ensures var k := ActivePhase(ds, t, |ds| - 1);
            Abs(PoseAt(ds, ps, t + 1)[m] - PoseAt(ds, ps, t)[m])
            <= StepSize(ds, ps, k, m) + if k + 1 < |ds| then StepSize(ds, ps, k + 1, m) else 0.0
  {
    var n := |ds| - 1;
    ActiveMoves(ds, t);
    JointOfPose(ds, ps, t, m);
    JointOfPose(ds, ps, t + 1, m);
    JointContinuous(ds, ps, t, ActivePhase(ds, t, n), ActivePhase(ds, t + 1, n), m);
  }

  lemma JointContinuous(ds: Durations, ps: Poses, t: nat, k: nat, k': nat, m: nat)
    requires |ps| == |ds| + 1 && m < JOINTS && k < |ds| && t >= StartTick(ds, k)
    requires k' == k || (k' == k + 1 < |ds| && t == StartTick(ds, k + 1))
    ensures Abs(JointAt(ds, ps, k', t + 1, m) - JointAt(ds, ps, k, t, m))
            <= StepSize(ds, ps, k, m) + if k + 1 < |ds| then StepSize(ds, ps, k + 1, m) else 0.0
  {
    if k' == k {
      ContinuousWithin(ds, ps, t, k, m);
      if k + 1 < |ds| {
        AbsScale(ps[k + 2][m] - ps[k + 1][m], ds[k + 1]);
      }
    } else {
      ContinuousAcross(ds, ps, k, m);
    }
  }

  /** Joint `m` of phase `k`'s command at tick `t`. */
  function JointAt(ds: Durations, ps: Poses, k: nat, t: nat, m: nat): real
    requires |ps| == |ds| + 1 && m < JOINTS && k < |ds|
  {
    Blend(ps[k][m], ps[k + 1][m], Percent(ds, k, t))
  }

  lemma JointOfPose(ds: Durations, ps: Poses, t: nat, m: nat)
    requires |ps| == |ds| + 1 && m < JOINTS
    ensures PoseAt(ds, ps, t)[m] == JointAt(ds, ps, ActivePhase(ds, t, |ds| - 1), t, m)
  {
  }

  lemma ContinuousWithin(ds: Durations, ps: Poses, t: nat, k: nat, m: nat)
    requires |ps| == |ds| + 1 && m < JOINTS && k < |ds| && t >= StartTick(ds, k)
    ensures Abs(JointAt(ds, ps, k, t + 1, m) - JointAt(ds, ps, k, t, m)) <= StepSize(ds, ps, k, m)
  {
    ProgressMove(ps[k][m], ps[k + 1][m], t - StartTick(ds, k), ds[k]);
  }

  lemma ContinuousAcross(ds: Durations, ps: Poses, k: nat, m: nat)
    requires |ps| == |ds| + 1 && m < JOINTS && k + 1 < |ds|
    ensures var t := StartTick(ds, k + 1);
            Abs(JointAt(ds, ps, k + 1, t + 1, m) - JointAt(ds, ps, k, t, m))
            <= StepSize(ds, ps, k, m) + StepSize(ds, ps, k + 1, m)
  {
    Crossing(ps[k][m], ps[k + 1][m], ps[k + 2][m], ds[k], ds[k + 1]);
  }

  /** The tick that leaves phase k with its last increment missing and enters phase k + 1 with its first. */
  lemma Crossing(a: real, b: real, c: real, d: nat, e: nat)
    requires d > 0 && e > 0
    ensures Abs(Blend(b, c, Progress(1, e)) - Blend(a, b, Progress(d - 1, d))) <= Abs(b - a) / d as real + Abs(c - b) / e as real
  {
    ProgressMove(a, b, d - 1, d);
    ProgressMove(b, c, 0, e);
    assert Blend(a, b, 1.0) == b && Blend(b, c, 0.0) == b;
    AbsSum(Blend(b, c, Progress(1, e)) - b, b - Blend(a, b, Progress(d - 1, d)));
  }

  lemma AbsSum(x: real, y: real)
    ensures Abs(x + y) <= Abs(x) + Abs(y)
  {
  }

  // ---------------------------------------------------------------- wheel commands

  const WHEEL_SPEED: real := 3.0

  /** What the third phase's block commands after its `j`-th increment; before it the stop value, after it zero. */
  function WheelSpeed(d: nat, j: int): real
    requires d > 0
  {
    if j <= 0 then VEL_STOP
    else if Progress(j, d) < 0.4 then WHEEL_SPEED
    else if Progress(j, d) < 0.8 then -WHEEL_SPEED
    else 0.0
  }

  lemma WheelTicks(d: nat, j: nat)
    requires d > 0 && j > 0
    ensures WheelSpeed(d, j) == 3.0 <==> 5 * j < 2 * d
    ensures WheelSpeed(d, j) == -3.0 <==> 2 * d <= 5 * j < 4 * d
    ensures WheelSpeed(d, j) == 0.0 <==> 4 * d <= 5 * j
  {
    if j < d {
      Below(j, d, 2);
      Below(j, d, 4);
      assert 0.4 == 2.0 / 5.0 && 0.8 == 4.0 / 5.0;
    }
  }

  lemma Below(j: nat, d: nat, c: nat)
    requires d > 0
    ensures j as real / d as real < c as real / 5.0 <==> 5 * j < c * d
  {
    var x := j as real / d as real;
    assert x * d as real == j as real;
    if x < c as real / 5.0 {
      assert x * d as real < (c as real / 5.0) * d as real;
    } else {
      assert x * d as real >= (c as real / 5.0) * d as real;
    }
  }

  /** The number of the first `n` ticks of the phase that command `v`. */
  function CountSpeed(d: nat, n: nat, v: real): nat
    requires d > 0
  {
    if n == 0 then 0 else CountSpeed(d, n - 1, v) + if WheelSpeed(d, n) == v then 1 else 0
  }

  lemma {:induction false} CountTicks(d: nat, n: nat)
    requires d > 0
    ensures CountSpeed(d, n, WHEEL_SPEED) == if 5 * n < 2 * d then n else (2 * d - 1) / 5
    ensures CountSpeed(d, n, -WHEEL_SPEED) ==
            if 5 * n < 2 * d then 0 else if 5 * n < 4 * d then n - (2 * d - 1) / 5 else (4 * d - 1) / 5 - (2 * d - 1) / 5
  {
    if n > 0 {
      CountTicks(d, n - 1);
      WheelTicks(d, n);
    }
  }

  /** The wheels roll back for as many ticks as they rolled forward, or one more; which, depends on d modulo 5. */
  lemma WheelBalance(d: nat)
    requires d > 0
    ensures CountSpeed(d, d, -3.0) - CountSpeed(d, d, 3.0) == if (2 * d) % 5 in {1, 2} then 0 else 1
  {
    CountTicks(d, d);
    Fifths(d);
  }

  lemma Fifths(d: nat)
    requires d > 0
    ensures (4 * d - 1) / 5 - 2 * ((2 * d - 1) / 5) == if (2 * d) % 5 in {1, 2} then 0 else 1
  {
    var k, r := d / 5, d % 5;
    assert d == 5 * k + r;
    var half := if r == 0 then -1 else if r <= 2 then 0 else 1;
    var whole := if r == 0 then -1 else if r == 1 then 0 else if r == 2 then 1 else if r == 3 then 2 else 3;
    Quotient(2 * d - 1, 2 * k + half);
    Quotient(4 * d - 1, 4 * k + whole);
    Quotient(2 * d, if r <= 2 then 2 * k else 2 * k + 1);
  }

  lemma Quotient(n: int, q: int)
    requires 5 * q <= n < 5 * q + 5
    ensures n / 5 == q && n % 5 == n - 5 * q
  {
  }

  /** Once the phase is over the wheels stay at zero. */
  lemma WheelsStop(d: nat, j: nat)
    requires d > 0 && j >= d
    ensures WheelSpeed(d, j) == 0.0
  {
  }
}
