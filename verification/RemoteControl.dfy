/** The two motion loops of the remote-control interface: rotating by an angle, and moving to a position.

    What the loops read (clock, cancel flag, robot state) is a finite sequence of samples, one per pass; a sequence
    that runs out means that the call has not returned yet. `pi` stands for M_PI.
 */
module RemoteControl {
  import opened Pid
  import opened Reals

  const YAW_TOLERANCE: real := 0.01
  const POSITION_TOLERANCE: real := 0.05

  datatype Status = Success | Cancelled | Timeout | StillRunning

  datatype Velocity = Velocity(vx: real, vy: real, vyaw: real)

  // ---------------------------------------------------------------- unwrapping the heading

  /** A yaw difference brought back by one turn if it exceeds half a turn. */
  function Unwrap(pi: real, d: real): real {
    if d > pi then d - 2.0 * pi else if d < -pi then d + 2.0 * pi else d
  }

  /** The angle the loop has accumulated after reading `yaws`, the first of which is the initial yaw. */
  function Accumulated(pi: real, yaws: seq<real>): real {
    if |yaws| <= 1 then 0.0
    else Accumulated(pi, yaws[..|yaws| - 1]) + Unwrap(pi, yaws[|yaws| - 1] - yaws[|yaws| - 2])
  }

  function Turns(pi: real, n: int): real {
    2.0 * pi * n as real
  }

  /** The sensor reports heading `h` as yaw `r`: the same direction, in [-pi, pi]. */
  ghost predicate Reads(pi: real, h: real, r: real) {
    -pi <= r <= pi && exists n: int :: h == r + Turns(pi, n)
  }

  /** One step is measured right exactly when the robot turned by less than half a turn, or by half a turn that the
      readings do not wrap. */
  lemma UnwrapExact(pi: real, h0: real, h1: real, r0: real, r1: real)
    requires pi > 0.0 && Reads(pi, h0, r0) && Reads(pi, h1, r1)
    ensures Unwrap(pi, r1 - r0) == h1 - h0 <==>
            -pi < h1 - h0 < pi || ((h1 - h0 == pi || h1 - h0 == -pi) && r1 - r0 == h1 - h0)
  {
    var n0: int :| h0 == r0 + Turns(pi, n0);
    var n1: int :| h1 == r1 + Turns(pi, n1);
    TurnsDiffer(pi, n1, n0);
    TurnsSize(pi, n1 - n0);
  }

  lemma TurnsDiffer(pi: real, m: int, n: int)
    ensures Turns(pi, m) - Turns(pi, n) == Turns(pi, m - n)
  {
    var x, y := m as real, n as real;
    assert (m - n) as real == x - y;
    assert 2.0 * pi * x - 2.0 * pi * y == 2.0 * pi * (x - y);
  }

  lemma TurnsSize(pi: real, n: int)
    requires pi > 0.0
    ensures n >= 2 ==> Turns(pi, n) >= 4.0 * pi
    ensures n <= -2 ==> Turns(pi, n) <= -4.0 * pi
    ensures Turns(pi, -1) == -2.0 * pi && Turns(pi, 0) == 0.0 && Turns(pi, 1) == 2.0 * pi
  {
    if n >= 2 {
      Product(pi, n as real - 2.0);
    } else if n <= -2 {
      Product(pi, -2.0 - n as real);
    }
  }

  /** The readings follow a robot that never turns by half a turn or more between two of them. */
  ghost predicate Tracks(pi: real, headings: seq<real>, yaws: seq<real>) {
    && |headings| == |yaws|
    && (forall i :: 0 <= i < |yaws| ==> Reads(pi, headings[i], yaws[i]))
    && (forall i :: 0 < i < |yaws| ==> -pi < headings[i] - headings[i - 1] < pi)
  }

  /** Then the accumulated angle is the true heading change, after any number of passes and any number of turns. */
  lemma {:induction false} AccumulatedIsTrue(pi: real, headings: seq<real>, yaws: seq<real>)
    requires pi > 0.0 && |yaws| > 0 && Tracks(pi, headings, yaws)
    ensures Accumulated(pi, yaws) == headings[|headings| - 1] - headings[0]
  {
    var n := |yaws| - 1;
    if n > 0 {
      AccumulatedIsTrue(pi, headings[..n], yaws[..n]);
      UnwrapExact(pi, headings[n - 1], headings[n], yaws[n - 1], yaws[n]);
    }
  }

  // ---------------------------------------------------------------- rotate

  datatype RotateSample = RotateSample(cancelled: bool, now: real, yaw: real)

  function YawsOf(initialYaw: real, samples: seq<RotateSample>): (r: seq<real>)
    ensures |r| == |samples| + 1
  {
    [initialYaw] + seq(|samples|, i requires 0 <= i < |samples| => samples[i].yaw)
  }

  /** The accumulated angle and the last yaw after `n` passes. */
  function AngleAfter(pi: real, initialYaw: real, samples: seq<RotateSample>, n: nat): real
    requires n <= |samples|
  {
    Accumulated(pi, YawsOf(initialYaw, samples[..n]))
  }

  function YawAfter(initialYaw: real, samples: seq<RotateSample>, n: nat): real
    requires n <= |samples|
  {
    if n == 0 then initialYaw else samples[n - 1].yaw
  }

  lemma AnglePush(pi: real, initialYaw: real, samples: seq<RotateSample>, n: nat)
    requires n < |samples|
    ensures AngleAfter(pi, initialYaw, samples, n + 1) ==
            AngleAfter(pi, initialYaw, samples, n) + Unwrap(pi, samples[n].yaw - YawAfter(initialYaw, samples, n))
  {
    var yaws := YawsOf(initialYaw, samples[..n]);
    assert YawsOf(initialYaw, samples[..n + 1]) == yaws + [samples[n].yaw];
    assert (yaws + [samples[n].yaw])[..|yaws|] == yaws;
  }

  /** The remaining angle that each pass computes. */
  function RotateErrors(pi: real, deltaRad: real, initialYaw: real, samples: seq<RotateSample>): (e: seq<real>)
    ensures |e| == |samples|
  {
    seq(|samples|, i requires 0 <= i < |samples| => deltaRad - AngleAfter(pi, initialYaw, samples, i + 1))
  }

  /** A controller with its memory before the call. */
  datatype Loaded = Loaded(p: Params, m: Memory) {
    function After(errors: seq<real>, n: nat): Memory
      requires p.rate > 0.0 && n <= |errors|
    {
      Run(p, m, errors[..n])
    }

    function Answer(errors: seq<real>, i: nat): real
      requires p.rate > 0.0 && i < |errors|
    {
      Output(p, After(errors, i), errors[i])
    }
  }

  /** What the loop condition of pass `i` compares with the end time. */
  function RotateClock(start: real, samples: seq<RotateSample>, i: nat): real
    requires i <= |samples|
  {
    if i == 0 then start else samples[i - 1].now
  }

  /** Pass `i` found time left, no cancellation and an angle still to go, and commanded the controller's answer to it. */
  ghost predicate TurnPass(yaw: Loaded, start: real, endTime: real, samples: seq<RotateSample>, errors: seq<real>, i: nat, v: Velocity)
    requires yaw.p.rate > 0.0 && i < |errors| == |samples|
  {
    && RotateClock(start, samples, i) < endTime && !samples[i].cancelled && Abs(errors[i]) >= 0.01
    && v == Velocity(0.0, 0.0, yaw.Answer(errors, i))
  }

  /** So did the first `n` passes. */
  ghost predicate Turning(yaw: Loaded, start: real, endTime: real, samples: seq<RotateSample>, errors: seq<real>,
                          moves: seq<Velocity>, n: nat)
    requires yaw.p.rate > 0.0 && |errors| == |samples|
  {
    && n <= |moves| && n <= |samples|
    && forall i {:trigger moves[i]} :: 0 <= i < n ==> TurnPass(yaw, start, endTime, samples, errors, i, moves[i])
  }

  lemma TurningNext(yaw: Loaded, start: real, endTime: real, samples: seq<RotateSample>, errors: seq<real>, moves: seq<Velocity>, v: Velocity)
    requires yaw.p.rate > 0.0 && |errors| == |samples| > |moves|
    requires Turning(yaw, start, endTime, samples, errors, moves, |moves|)
    requires TurnPass(yaw, start, endTime, samples, errors, |moves|, v)
    ensures Turning(yaw, start, endTime, samples, errors, moves + [v], |moves| + 1)
  {
    forall i | 0 <= i < |moves| ensures TurnPass(yaw, start, endTime, samples, errors, i, (moves + [v])[i]) {
      assert (moves + [v])[i] == moves[i];
    }
  }

  lemma TurningMore(yaw: Loaded, start: real, endTime: real, samples: seq<RotateSample>, errors: seq<real>, moves: seq<Velocity>, more: seq<Velocity>)
    requires yaw.p.rate > 0.0 && |errors| == |samples|
    requires Turning(yaw, start, endTime, samples, errors, moves, |moves|)
    ensures Turning(yaw, start, endTime, samples, errors, moves + more, |moves|) && (moves + more)[|moves|..] == more
  {
    forall i | 0 <= i < |moves| ensures TurnPass(yaw, start, endTime, samples, errors, i, (moves + more)[i]) {
      assert (moves + more)[i] == moves[i];
    }
  }

  /** Feeding the next error of a history. */
  method Respond(pid: Pid, error: real, ghost loaded: Loaded, ghost errors: seq<real>, ghost n: nat) returns (v: real)
    requires pid.params == loaded.p && loaded.p.rate > 0.0 && n < |errors| && error == errors[n]
    requires pid.Value() == loaded.After(errors, n)
    modifies pid
    ensures v == loaded.Answer(errors, n) && pid.Value() == loaded.After(errors, n + 1)
    ensures pid.params.oLimit > 0.0 ==> Abs(v) <= pid.params.oLimit
  {
    RunPush(loaded.p, loaded.m, errors, n);
    v := pid.Update(error);
  }

  method Accumulate(pi: real, accumulated: real, prevYaw: real, yaw: real) returns (sum: real)
    ensures sum == accumulated + Unwrap(pi, yaw - prevYaw)
  {
    var yawDiff := yaw - prevYaw;
    if yawDiff > pi {
      yawDiff := yawDiff - 2.0 * pi;
    } else if yawDiff < -pi {
      yawDiff := yawDiff + 2.0 * pi;
    }
    sum := accumulated + yawDiff;
  }

  /** How a call of `Rotate` ends. */
  ghost predicate Rotated(yaw: Loaded, start: real, endTime: real, samples: seq<RotateSample>, errors: seq<real>,
                          status: Status, moves: seq<Velocity>, passed: nat)
    requires yaw.p.rate > 0.0 && |errors| == |samples|
  {
    && passed <= |samples| && passed <= |moves|
    && (RotateClock(start, samples, passed) < endTime <==> status != Timeout)
    && (status == StillRunning ==> passed == |samples|)
    && (status in {Success, Cancelled} ==> passed < |samples| && (samples[passed].cancelled <==> status == Cancelled))
    && (status == Success ==> Abs(errors[passed]) < 0.01)
    && moves[passed..] == if status == Cancelled then [Velocity(0.0, 0.0, 0.0)] else []
  }

  /** Turns by `deltaRad`. `used` counts the samples read. */
  method Rotate(pidYaw: Pid, pi: real, deltaRad: real, start: real, timeout: real, initialYaw: real, samples: seq<RotateSample>)
    returns (status: Status, moves: seq<Velocity>, used: nat)
    requires pidYaw.params.rate > 0.0
    modifies pidYaw
    ensures used <= |samples|
    ensures var errors, endTime := RotateErrors(pi, deltaRad, initialYaw, samples), start + timeout;
            var yaw, passed := Loaded(pidYaw.params, old(pidYaw.Value())), if status in {Success, Cancelled} then used - 1 else used;
            && passed >= 0
            && Turning(yaw, start, endTime, samples, errors, moves, passed)
            && Rotated(yaw, start, endTime, samples, errors, status, moves, passed)
            && pidYaw.Value() == yaw.After(errors, passed)
  {
    ghost var errors, yaw := RotateErrors(pi, deltaRad, initialYaw, samples), Loaded(pidYaw.params, pidYaw.Value());
    var accumulated, now, prevYaw := 0.0, start, initialYaw;
    var endTime := start + timeout;
    moves, used := [], 0;
    while now < endTime
      invariant used <= |samples| && used == |moves|
      invariant accumulated == AngleAfter(pi, initialYaw, samples, used)
      invariant prevYaw == YawAfter(initialYaw, samples, used)
      invariant now == RotateClock(start, samples, used)
      invariant Turning(yaw, start, endTime, samples, errors, moves, used)
      invariant pidYaw.Value() == yaw.After(errors, used)
      decreases |samples| - used
    {
      if used == |samples| {
        return StillRunning, moves, used;
      }
      var s := samples[used];
      if s.cancelled {
        TurningMore(yaw, start, endTime, samples, errors, moves, [Velocity(0.0, 0.0, 0.0)]);
        return Cancelled, moves + [Velocity(0.0, 0.0, 0.0)], used + 1;
      }
      now := s.now;
      AnglePush(pi, initialYaw, samples, used);
      accumulated := Accumulate(pi, accumulated, prevYaw, s.yaw);
      prevYaw := s.yaw;
      var remaining := deltaRad - accumulated;
      if Abs(remaining) < YAW_TOLERANCE {
        return Success, moves, used + 1;
      }
      var vyaw := Respond(pidYaw, remaining, yaw, errors, used);
      TurningNext(yaw, start, endTime, samples, errors, moves, Velocity(0.0, 0.0, vyaw));
      moves := moves + [Velocity(0.0, 0.0, vyaw)];
      used := used + 1;
    }
    return Timeout, moves, used;
  }

  /** SUCCESS means that the robot itself turned within 0.01 rad of the request, however many turns that took. */
  lemma SuccessMeansTurned(pi: real, deltaRad: real, initialYaw: real, samples: seq<RotateSample>, used: nat, headings: seq<real>)
    requires pi > 0.0 && 0 < used <= |samples| && Tracks(pi, headings, YawsOf(initialYaw, samples[..used]))
    requires Abs(RotateErrors(pi, deltaRad, initialYaw, samples)[used - 1]) < 0.01
    ensures Abs(deltaRad - (headings[used] - headings[0])) < 0.01
  {
    RemainingIsTrue(pi, deltaRad, initialYaw, samples, used - 1, headings);
  }

  /** What pass `i` takes for the angle still to go is that angle. */
  lemma RemainingIsTrue(pi: real, deltaRad: real, initialYaw: real, samples: seq<RotateSample>, i: nat, headings: seq<real>)
    requires pi > 0.0 && i < |samples| && |headings| > i + 1
    requires Tracks(pi, headings[..i + 2], YawsOf(initialYaw, samples[..i + 1]))
    ensures RotateErrors(pi, deltaRad, initialYaw, samples)[i] == deltaRad - (headings[i + 1] - headings[0])
  {
    AccumulatedIsTrue(pi, headings[..i + 2], YawsOf(initialYaw, samples[..i + 1]));
  }

  // ---------------------------------------------------------------- the controllers of the code

  /** A proportional controller with gain `kp` and answers in [-limit, limit]. */
  predicate Proportionally(p: Params, kp: real, limit: real) {
    p.kp == kp && p.ki == 0.0 && p.kd == 0.0 && p.rate > 0.0 && p.oLimit == limit
  }

  predicate SameSign(v: real, d: real) {
    (d > 0.0 <==> v > 0.0) && (d < 0.0 <==> v < 0.0)
  }

  lemma AnswerOf(c: Loaded, errors: seq<real>, i: nat, kp: real, limit: real)
    requires Proportionally(c.p, kp, limit) && kp > 0.0 && limit > 0.0 && i < |errors|
    ensures c.Answer(errors, i) == Held(kp * errors[i], limit) && SameSign(c.Answer(errors, i), errors[i])
  {
    Proportional(c.p, c.After(errors, i), errors[i]);
    Signs(kp, errors[i]);
  }

  /** With the gains of the code, every command of a rotation turns the robot towards the requested heading: ten times
      the angle that is still to go, at most 2 rad/s. */
  lemma TurnsTowards(yaw: Loaded, pi: real, deltaRad: real, start: real, endTime: real, initialYaw: real, samples: seq<RotateSample>,
                     moves: seq<Velocity>, n: nat, i: nat, headings: seq<real>)
    requires pi > 0.0 && Proportionally(yaw.p, 10.0, 2.0) && i < n
    requires Turning(yaw, start, endTime, samples, RotateErrors(pi, deltaRad, initialYaw, samples), moves, n)
    requires |headings| > i + 1 && Tracks(pi, headings[..i + 2], YawsOf(initialYaw, samples[..i + 1]))
    ensures var toGo := deltaRad - (headings[i + 1] - headings[0]);
            moves[i] == Velocity(0.0, 0.0, Held(10.0 * toGo, 2.0)) && Abs(toGo) >= 0.01 && SameSign(moves[i].vyaw, toGo)
  {
    var errors := RotateErrors(pi, deltaRad, initialYaw, samples);
    assert TurnPass(yaw, start, endTime, samples, errors, i, moves[i]);
    RemainingIsTrue(pi, deltaRad, initialYaw, samples, i, headings);
    AnswerOf(yaw, errors, i, 10.0, 2.0);
  }

  // ---------------------------------------------------------------- frames

  datatype Vec2 = Vec2(x: real, y: real)

  /** Body to world, for a heading with cosine `c` and sine `s`. */
  function ToWorld(c: real, s: real, v: Vec2): Vec2 {
    Vec2(v.x * c - v.y * s, v.x * s + v.y * c)
  }

  /** World to body. */
  function ToBody(c: real, s: real, v: Vec2): Vec2 {
    Vec2(v.x * c + v.y * s, -v.x * s + v.y * c)
  }

  function LengthSquared(v: Vec2): real {
    v.x * v.x + v.y * v.y
  }

  /** A sum of products over a common factor, for a unit vector (c, s). */
  lemma UnitFactor(c: real, s: real, x: real)
    requires c * c + s * s == 1.0
    ensures x * c * c + x * s * s == x
  {
    assert x * c * c + x * s * s == x * (c * c + s * s);
  }

  lemma BodyOfWorld(c: real, s: real, v: Vec2)
    requires c * c + s * s == 1.0
    ensures ToBody(c, s, ToWorld(c, s, v)) == v
  {
    UnitFactor(c, s, v.x);
    UnitFactor(c, s, v.y);
  }

  lemma WorldOfBody(c: real, s: real, v: Vec2)
    requires c * c + s * s == 1.0
    ensures ToWorld(c, s, ToBody(c, s, v)) == v
  {
    UnitFactor(c, s, v.x);
    UnitFactor(c, s, v.y);
  }

  lemma LengthsKept(c: real, s: real, v: Vec2)
    requires c * c + s * s == 1.0
    ensures LengthSquared(ToWorld(c, s, v)) == LengthSquared(v) && LengthSquared(ToBody(c, s, v)) == LengthSquared(v)
  {
    var n := v.x * v.x + v.y * v.y;
    assert LengthSquared(ToWorld(c, s, v)) == n * (c * c + s * s);
    assert LengthSquared(ToBody(c, s, v)) == n * (c * c + s * s);
  }

  /** Forward is (c, s) in the world and left is (-s, c); the two frame changes undo each other and keep lengths. */
  lemma FramesInvert(c: real, s: real, v: Vec2)
    requires c * c + s * s == 1.0
    ensures ToWorld(c, s, Vec2(1.0, 0.0)) == Vec2(c, s) && ToWorld(c, s, Vec2(0.0, 1.0)) == Vec2(-s, c)
    ensures ToBody(c, s, ToWorld(c, s, v)) == v && ToWorld(c, s, ToBody(c, s, v)) == v
    ensures LengthSquared(ToWorld(c, s, v)) == LengthSquared(v) && LengthSquared(ToBody(c, s, v)) == LengthSquared(v)
  {
    BodyOfWorld(c, s, v);
    WorldOfBody(c, s, v);
    LengthsKept(c, s, v);
  }

  // ---------------------------------------------------------------- move

  /** A pass reads the position and the yaw, given with the yaw's cosine and sine. */
  datatype MoveSample = MoveSample(cancelled: bool, now: real, x: real, y: real, yaw: real, c: real, s: real)

  function MoveTarget(bodyFrame: bool, dx: real, dy: real, start: MoveSample): Vec2 {
    if bodyFrame then
      var b := ToWorld(start.c, start.s, Vec2(dx, dy));
      Vec2(start.x + b.x, start.y + b.y)
    else Vec2(start.x + dx, start.y + dy)
  }

  /** The target is the start plus the request, which in the body frame is the request as the robot at the start sees it. */
  lemma TargetIs(bodyFrame: bool, dx: real, dy: real, start: MoveSample)
    requires UnitHeading(start)
    ensures var t := MoveTarget(bodyFrame, dx, dy, start);
            && (!bodyFrame ==> t == Vec2(start.x + dx, start.y + dy))
            && (bodyFrame ==> t == Vec2(start.x + (dx * start.c - dy * start.s), start.y + (dx * start.s + dy * start.c)))
            && (bodyFrame ==> ToBody(start.c, start.s, Vec2(t.x - start.x, t.y - start.y)) == Vec2(dx, dy))
  {
    BodyOfWorld(start.c, start.s, Vec2(dx, dy));
  }

  predicate Slow(v: Velocity) {
    LengthSquared(Vec2(v.vx, v.vy)) <= 2.0 && Abs(v.vyaw) <= 2.0
  }

  predicate UnitHeading(s: MoveSample) {
    s.c * s.c + s.s * s.s == 1.0
  }

  /** A world-frame velocity with both parts in [-1, 1], in the body frame. */
  method Turned(s: MoveSample, vx: real, vy: real) returns (body: Vec2)
    requires UnitHeading(s) && Abs(vx) <= 1.0 && Abs(vy) <= 1.0
    ensures ToWorld(s.c, s.s, body) == Vec2(vx, vy) && LengthSquared(body) <= 2.0
  {
    body := ToBody(s.c, s.s, Vec2(vx, vy));
    FramesInvert(s.c, s.s, Vec2(vx, vy));
    Product(1.0 - vx, 1.0 + vx);
    Product(1.0 - vy, 1.0 + vy);
  }

  /** The three errors of each pass: position along the world axes, and yaw. */
  function ErrorsX(target: Vec2, samples: seq<MoveSample>): (e: seq<real>)
    ensures |e| == |samples|
  {
    seq(|samples|, i requires 0 <= i < |samples| => target.x - samples[i].x)
  }

  function ErrorsY(target: Vec2, samples: seq<MoveSample>): (e: seq<real>)
    ensures |e| == |samples|
  {
    seq(|samples|, i requires 0 <= i < |samples| => target.y - samples[i].y)
  }

  function ErrorsYaw(yaw: real, samples: seq<MoveSample>): (e: seq<real>)
    ensures |e| == |samples|
  {
    seq(|samples|, i requires 0 <= i < |samples| => yaw - samples[i].yaw)
  }

  function MoveClock(start: MoveSample, samples: seq<MoveSample>, i: nat): real
    requires i <= |samples|
  {
    if i == 0 then start.now else samples[i - 1].now
  }

  predicate Arrived(target: Vec2, s: MoveSample) {
    Abs(target.x - s.x) < 0.05 && Abs(target.y - s.y) < 0.05
  }

  predicate Goes(target: Vec2, start: MoveSample, endTime: real, samples: seq<MoveSample>, i: nat)
    requires i < |samples|
  {
    MoveClock(start, samples, i) < endTime && !samples[i].cancelled && !Arrived(target, samples[i])
  }

  /** The velocity of pass `i`, seen in the world frame, is the answer of the two position controllers. */
  ghost predicate Commands(x: Loaded, y: Loaded, yaw: Loaded, target: Vec2, start: MoveSample, samples: seq<MoveSample>, i: nat, v: Velocity)
    requires x.p.rate > 0.0 && y.p.rate > 0.0 && yaw.p.rate > 0.0 && i < |samples|
  {
    && ToWorld(samples[i].c, samples[i].s, Vec2(v.vx, v.vy))
       == Vec2(x.Answer(ErrorsX(target, samples), i), y.Answer(ErrorsY(target, samples), i))
    && v.vyaw == yaw.Answer(ErrorsYaw(start.yaw, samples), i)
  }

  /** Pass `i` found time left, no cancellation and a way to go, and commanded that velocity, which is slow. */
  ghost predicate MovePass(x: Loaded, y: Loaded, yaw: Loaded, target: Vec2, start: MoveSample, endTime: real,
                           samples: seq<MoveSample>, i: nat, v: Velocity)
    requires x.p.rate > 0.0 && y.p.rate > 0.0 && yaw.p.rate > 0.0 && i < |samples|
  {
    Goes(target, start, endTime, samples, i) && Commands(x, y, yaw, target, start, samples, i, v) && Slow(v)
  }

  ghost predicate Moving(x: Loaded, y: Loaded, yaw: Loaded, target: Vec2, start: MoveSample, endTime: real,
                         samples: seq<MoveSample>, moves: seq<Velocity>, n: nat)
    requires x.p.rate > 0.0 && y.p.rate > 0.0 && yaw.p.rate > 0.0
  {
    && n <= |moves| && n <= |samples|
    && forall i {:trigger moves[i]} :: 0 <= i < n ==> MovePass(x, y, yaw, target, start, endTime, samples, i, moves[i])
  }

  lemma MovingNext(x: Loaded, y: Loaded, yaw: Loaded, target: Vec2, start: MoveSample, endTime: real,
                   samples: seq<MoveSample>, moves: seq<Velocity>, v: Velocity)
    requires x.p.rate > 0.0 && y.p.rate > 0.0 && yaw.p.rate > 0.0 && |moves| < |samples|
    requires Moving(x, y, yaw, target, start, endTime, samples, moves, |moves|)
    requires MovePass(x, y, yaw, target, start, endTime, samples, |moves|, v)
    ensures Moving(x, y, yaw, target, start, endTime, samples, moves + [v], |moves| + 1)
  {
    forall i | 0 <= i < |moves| + 1 ensures MovePass(x, y, yaw, target, start, endTime, samples, i, (moves + [v])[i]) {
      assert i < |moves| ==> (moves + [v])[i] == moves[i];
    }
  }

  lemma MovingMore(x: Loaded, y: Loaded, yaw: Loaded, target: Vec2, start: MoveSample, endTime: real,
                   samples: seq<MoveSample>, moves: seq<Velocity>, more: seq<Velocity>)
    requires x.p.rate > 0.0 && y.p.rate > 0.0 && yaw.p.rate > 0.0
    requires Moving(x, y, yaw, target, start, endTime, samples, moves, |moves|)
    ensures Moving(x, y, yaw, target, start, endTime, samples, moves + more, |moves|) && (moves + more)[|moves|..] == more
  {
    forall i | 0 <= i < |moves| ensures MovePass(x, y, yaw, target, start, endTime, samples, i, (moves + more)[i]) {
      assert (moves + more)[i] == moves[i];
    }
  }

  /** The controllers of `move` have the clamps of the code. */
  predicate Clamped(x: Params, y: Params, yaw: Params) {
    && x.rate > 0.0 && y.rate > 0.0 && yaw.rate > 0.0
    && x.oLimit == y.oLimit == 1.0 && yaw.oLimit == 2.0
  }

  /** The three controllers have been fed the errors of the first `n` passes. */
  ghost predicate Fed(pidX: Pid, pidY: Pid, pidYaw: Pid, x: Loaded, y: Loaded, yaw: Loaded,
                      target: Vec2, start: MoveSample, samples: seq<MoveSample>, n: nat)
    requires x.p.rate > 0.0 && y.p.rate > 0.0 && yaw.p.rate > 0.0 && n <= |samples|
    reads pidX, pidY, pidYaw
  {
    && pidX.params == x.p && pidY.params == y.p && pidYaw.params == yaw.p
    && pidX != pidY && pidYaw != pidX && pidYaw != pidY
    && pidX.Value() == x.After(ErrorsX(target, samples), n)
    && pidY.Value() == y.After(ErrorsY(target, samples), n)
    && pidYaw.Value() == yaw.After(ErrorsYaw(start.yaw, samples), n)
  }

  /** The velocity of one pass: two position controllers in the world frame, turned into the body frame, and the yaw. */
  method Steer(pidX: Pid, pidY: Pid, pidYaw: Pid, target: Vec2, start: MoveSample, samples: seq<MoveSample>, n: nat,
               ghost x: Loaded, ghost y: Loaded, ghost yaw: Loaded) returns (v: Velocity)
    requires Clamped(x.p, y.p, yaw.p) && n < |samples| && Fed(pidX, pidY, pidYaw, x, y, yaw, target, start, samples, n)
    requires UnitHeading(samples[n])
    modifies pidX, pidY, pidYaw
    ensures Fed(pidX, pidY, pidYaw, x, y, yaw, target, start, samples, n + 1)
    ensures Commands(x, y, yaw, target, start, samples, n, v) && Slow(v)
  {
    var s := samples[n];
    var vx := Respond(pidX, target.x - s.x, x, ErrorsX(target, samples), n);
    var vy := Respond(pidY, target.y - s.y, y, ErrorsY(target, samples), n);
    var body := Turned(s, vx, vy);
    var vyaw := Respond(pidYaw, start.yaw - s.yaw, yaw, ErrorsYaw(start.yaw, samples), n);
    v := Velocity(body.x, body.y, vyaw);
  }

  /** How a call of `Move` ends. */
  ghost predicate Moved(target: Vec2, start: MoveSample, endTime: real, samples: seq<MoveSample>, status: Status, moves: seq<Velocity>, passed: nat) {
    && passed <= |samples| && passed <= |moves|
    && (MoveClock(start, samples, passed) < endTime <==> status != Timeout)
    && (status == StillRunning ==> passed == |samples|)
    && (status in {Success, Cancelled} ==> passed < |samples| && (samples[passed].cancelled <==> status == Cancelled))
    && (status == Success ==> Arrived(target, samples[passed]))
    && moves[passed..] == if status == Cancelled then [Velocity(0.0, 0.0, 0.0)] else []
  }

  /** Moves by (dx, dy). `start` is the state at the call. */
  method Move(pidX: Pid, pidY: Pid, pidYaw: Pid, dx: real, dy: real, bodyFrame: bool, timeout: real, start: MoveSample, samples: seq<MoveSample>)
    returns (status: Status, moves: seq<Velocity>, used: nat)
    requires pidX != pidY && pidYaw != pidX && pidYaw != pidY && Clamped(pidX.params, pidY.params, pidYaw.params)
    requires forall i :: 0 <= i < |samples| ==> UnitHeading(samples[i])
    modifies pidX, pidY, pidYaw
    ensures used <= |samples|
    ensures var x, y, yaw := Loaded(pidX.params, old(pidX.Value())), Loaded(pidY.params, old(pidY.Value())), Loaded(pidYaw.params, old(pidYaw.Value()));
            var target, endTime := MoveTarget(bodyFrame, dx, dy, start), start.now + timeout;
            var passed := if status in {Success, Cancelled} then used - 1 else used;
            && passed >= 0
            && Moving(x, y, yaw, target, start, endTime, samples, moves, passed)
            && Moved(target, start, endTime, samples, status, moves, passed)
            && Fed(pidX, pidY, pidYaw, x, y, yaw, target, start, samples, passed)
  {
    ghost var x, y, yaw := Loaded(pidX.params, pidX.Value()), Loaded(pidY.params, pidY.Value()), Loaded(pidYaw.params, pidYaw.Value());
    var target := MoveTarget(bodyFrame, dx, dy, start);
    var now, endTime := start.now, start.now + timeout;
    moves, used := [], 0;
    while now < endTime
      invariant used <= |samples| && used == |moves|
      invariant now == MoveClock(start, samples, used)
      invariant Moving(x, y, yaw, target, start, endTime, samples, moves, used)
      invariant Fed(pidX, pidY, pidYaw, x, y, yaw, target, start, samples, used)
      decreases |samples| - used
    {
      if used == |samples| {
        return StillRunning, moves, used;
      }
      var s := samples[used];
      if s.cancelled {
        MovingMore(x, y, yaw, target, start, endTime, samples, moves, [Velocity(0.0, 0.0, 0.0)]);
        return Cancelled, moves + [Velocity(0.0, 0.0, 0.0)], used + 1;
      }
      now := s.now;
      if Abs(target.x - s.x) < POSITION_TOLERANCE && Abs(target.y - s.y) < POSITION_TOLERANCE {
        return Success, moves, used + 1;
      }
      var v := Steer(pidX, pidY, pidYaw, target, start, samples, used, x, y, yaw);
      MovingNext(x, y, yaw, target, start, endTime, samples, moves, v);
      moves := moves + [v];
      used := used + 1;
    }
    return Timeout, moves, used;
  }

  /** World velocity `w` has a positive part along the way to the target. */
  predicate Towards(w: Vec2, target: Vec2, s: MoveSample) {
    w.x * (target.x - s.x) + w.y * (target.y - s.y) > 0.0
  }

  lemma TowardsBy(w: Vec2, target: Vec2, s: MoveSample)
    requires SameSign(w.x, target.x - s.x) && SameSign(w.y, target.y - s.y) && !Arrived(target, s)
    ensures Towards(w, target, s)
  {
    SameSignProduct(w.x, target.x - s.x);
    SameSignProduct(w.y, target.y - s.y);
  }

  lemma SameSignProduct(v: real, d: real)
    requires SameSign(v, d)
    ensures v * d >= 0.0 && (d != 0.0 ==> v * d > 0.0)
  {
  }

  /** With the gains of the code, every command of a move drives the robot towards the target along both world axes: twice
      the distance that is still to go, at most 1 m/s; and it turns the robot back to the heading of the start. */
  lemma DrivesTowards(x: Loaded, y: Loaded, yaw: Loaded, target: Vec2, start: MoveSample, endTime: real,
                      samples: seq<MoveSample>, moves: seq<Velocity>, n: nat, i: nat)
    requires Proportionally(x.p, 2.0, 1.0) && Proportionally(y.p, 2.0, 1.0) && Proportionally(yaw.p, 10.0, 2.0) && i < n
    requires Moving(x, y, yaw, target, start, endTime, samples, moves, n)
    ensures var s, v := samples[i], moves[i];
            var w := Vec2(Held(2.0 * (target.x - s.x), 1.0), Held(2.0 * (target.y - s.y), 1.0));
            && ToWorld(s.c, s.s, Vec2(v.vx, v.vy)) == w
            && SameSign(w.x, target.x - s.x) && SameSign(w.y, target.y - s.y) && Towards(w, target, s)
            && v.vyaw == Held(10.0 * (start.yaw - s.yaw), 2.0) && SameSign(v.vyaw, start.yaw - s.yaw)
  {
    assert MovePass(x, y, yaw, target, start, endTime, samples, i, moves[i]);
    AnswerOf(x, ErrorsX(target, samples), i, 2.0, 1.0);
    AnswerOf(y, ErrorsY(target, samples), i, 2.0, 1.0);
    AnswerOf(yaw, ErrorsYaw(start.yaw, samples), i, 10.0, 2.0);
    var s := samples[i];
    TowardsBy(Vec2(Held(2.0 * (target.x - s.x), 1.0), Held(2.0 * (target.y - s.y), 1.0)), target, s);
  }
}
