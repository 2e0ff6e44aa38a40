/** The `LowCmdWrite` ticks of the stand examples, proved against the closed form of `StandSequencer`. */
module StandExamples {
  import opened LowCommand
  import opened StandSequencer

  /** Ticks 1 to 499 only count; tick 500 is the first active one. */
  const WAIT_TICKS: nat := 499

  /** What every block writes into the twelve leg motors. */
  datatype LegCommand = LegCommand(q: Joints, dq: real, kp: real, kd: real, tau: real)

  /** What the wheel blocks write into the four wheel motors. */
  datatype WheelCommand = WheelCommand(q: real, dq: real, kp: real, kd: real, tau: real)

  /** The last phase with progress is the active one. */
  lemma ActiveByPercent(ds: Durations, t: nat, a: nat)
    requires a < |ds| && (a == 0 || Percent(ds, a, t) > 0.0)
    requires a + 1 < |ds| ==> Percent(ds, a + 1, t) == 0.0
    ensures ActivePhase(ds, t, |ds| - 1) == a
  {
    PercentRange(ds, a, t);
    if a + 1 < |ds| {
      PercentRange(ds, a + 1, t);
      forall j | a < j <= |ds| - 1 ensures t <= StartTick(ds, j) {
        StartMonotone(ds, a + 1, j);
      }
    }
    ActiveIs(ds, t, |ds| - 1, a);
  }

  lemma LerpSame(a: Joints, p: real)
    ensures Lerp(a, a, p) == a
  {
  }

  /** Everything one tick needs to know about phase `k`. */
  lemma PhaseTick(ds: Durations, k: nat, t: nat)
    requires k < |ds|
    ensures Percent(ds, k, t + 1) ==
            if k == 0 || Percent(ds, k - 1, t + 1) == 1.0 then Bump(Percent(ds, k, t), ds[k]) else Percent(ds, k, t)
    ensures 0.0 <= Percent(ds, k, t) <= 1.0 && 0.0 <= Percent(ds, k, t + 1) <= 1.0
    ensures k > 0 ==> (Percent(ds, k, t + 1) > 0.0 <==> Percent(ds, k - 1, t + 1) == 1.0)
    ensures Percent(ds, k, t) == 1.0 ==> Bump(Percent(ds, k, t), ds[k]) == 1.0
  {
    NextPercent(ds, k, t);
    PercentRange(ds, k, t);
    PercentRange(ds, k, t + 1);
    if k > 0 {
      PhasesInOrder(ds, k - 1, k, t + 1);
    }
    assert 1.0 / ds[k] as real > 0.0;
  }

  /** Once phase `k` has its turn, and unless it just completed with phases left, its blend is the commanded pose. */
  lemma PhaseSettles(ds: Durations, ps: Poses, k: nat, t: nat)
    requires |ps| == |ds| + 1 && k < |ds| && t > 0 && (k == 0 || Percent(ds, k - 1, t) == 1.0)
    ensures k == |ds| - 1 || Percent(ds, k, t) < 1.0 ==> PoseAt(ds, ps, t) == Lerp(ps[k], ps[k + 1], Percent(ds, k, t))
  {
    if k > 0 {
      PhasesInOrder(ds, k - 1, k, t);
    }
    if k + 1 < |ds| {
      PhasesInOrder(ds, k, k + 1, t);
      PercentRange(ds, k + 1, t);
    }
    if k == |ds| - 1 || Percent(ds, k, t) < 1.0 {
      PercentRange(ds, k, t);
      ActiveByPercent(ds, t, k);
    }
  }

  lemma Ordered(ds: Durations, t: nat)
    ensures forall j, k :: 0 <= j < k < |ds| && Percent(ds, k, t) == 1.0 ==> Percent(ds, j, t) == 1.0
  {
    forall j, k | 0 <= j < k < |ds| && Percent(ds, k, t) == 1.0 ensures Percent(ds, j, t) == 1.0 {
      PhasesInOrder(ds, j, k, t);
    }
  }

  /** After the block of phase `k`: the pose of this tick is commanded, unless the next block still has its turn. */
  ghost predicate Settled(ds: Durations, ps: Poses, k: nat, t: nat, q: Joints)
    requires |ps| == |ds| + 1 && k < |ds|
  {
    (k < |ds| - 1 && Percent(ds, k, t) == 1.0) || q == PoseAt(ds, ps, t)
  }

  /** The first block: always advances, commands only while unfinished. */
  method FirstBlock(ds: Durations, p: real, from: Joints, to: Joints, q: Joints, ghost ps: Poses, ghost t: nat)
    returns (p': real, q': Joints)
    requires |ps| == |ds| + 1 > 2 && ps[0] == from && ps[1] == to && p == Percent(ds, 0, t)
    ensures p' == Percent(ds, 0, t + 1) && Settled(ds, ps, 0, t + 1, q')
  {
    PhaseTick(ds, 0, t);
    PhaseSettles(ds, ps, 0, t + 1);
    q' := q;
    p' := Bump(p, ds[0]);
    if p' < 1.0 {
      q' := Lerp(from, to, p');
    }
  }

  /** A later block; `turn` says that the earlier phases are complete. The last block runs for ever, the others until
      they are complete, and a block that moves nowhere commands its pose directly. */
  method LaterBlock(ds: Durations, k: nat, turn: bool, p: real, from: Joints, to: Joints, q: Joints, ghost ps: Poses, ghost t: nat)
    returns (p': real, q': Joints)
    requires |ps| == |ds| + 1 && 0 < k < |ds| && ps[k] == from && ps[k + 1] == to && p == Percent(ds, k, t)
    requires turn <==> Percent(ds, k - 1, t + 1) == 1.0
    requires Settled(ds, ps, k - 1, t + 1, q)
    ensures p' == Percent(ds, k, t + 1) && Settled(ds, ps, k, t + 1, q')
  {
    PhaseTick(ds, k, t);
    p', q' := p, q;
    if turn && (p < 1.0 || k == |ds| - 1) {
      PhaseSettles(ds, ps, k, t + 1);
      p' := Bump(p, ds[k]);
      if from == to {
        LerpSame(from, p');
        q' := from;
      } else {
        q' := Lerp(from, to, p');
      }
    }
  }

  // ---------------------------------------------------------------- the pose of every tick

  /** `j` parts in `d` of the way from `a` to `b`. */
  function Part(a: real, b: real, j: int, d: nat): real
    requires d > 0
  {
    a + (b - a) * (j as real / d as real)
  }

  lemma BlendIsPart(a: real, b: real, j: int, d: nat)
    requires d > 0
    ensures Blend(a, b, j as real / d as real) == Part(a, b, j, d) && Blend(a, b, 1.0) == b
  {
  }

  /** Inside phase `k`: joint `m` is as many parts of the way as ticks have passed. */
  lemma PhasePose(ds: Durations, ps: Poses, k: nat, t: nat, m: nat)
    requires |ps| == |ds| + 1 && k < |ds| && m < JOINTS && StartTick(ds, k) < t
    requires k + 1 < |ds| ==> t <= StartTick(ds, k + 1)
    ensures var j := t - StartTick(ds, k);
            PoseAt(ds, ps, t)[m] == if j < ds[k] then Part(ps[k][m], ps[k + 1][m], j, ds[k]) else ps[k + 1][m]
  {
    if k + 1 < |ds| {
      forall i | k < i <= |ds| - 1 ensures t <= StartTick(ds, i) {
        StartMonotone(ds, k + 1, i);
      }
    }
    ActiveIs(ds, t, |ds| - 1, k);
    BlendIsPart(ps[k][m], ps[k + 1][m], t - StartTick(ds, k), ds[k]);
  }

  lemma StartTicks(ds: Durations)
    ensures StartTick(ds, 0) == 0 && StartTick(ds, 1) == ds[0] - 1
    ensures |ds| >= 2 ==> StartTick(ds, 2) == ds[0] + ds[1] - 2
    ensures |ds| >= 3 ==> StartTick(ds, 3) == ds[0] + ds[1] + ds[2] - 3
    ensures |ds| >= 4 ==> StartTick(ds, 4) == ds[0] + ds[1] + ds[2] + ds[3] - 4
    ensures |ds| >= 5 ==> StartTick(ds, 5) == ds[0] + ds[1] + ds[2] + ds[3] + ds[4] - 5
  {
    assert StartTick(ds, 1) == ds[0] - 1;
    if |ds| >= 2 {
      assert StartTick(ds, 2) == ds[0] + ds[1] - 2;
    }
    if |ds| >= 3 {
      assert StartTick(ds, 3) == ds[0] + ds[1] + ds[2] - 3;
    }
    if |ds| >= 4 {
      assert StartTick(ds, 4) == ds[0] + ds[1] + ds[2] + ds[3] - 4;
    }
  }

  /** The pose of every active tick of the four-phase examples: from the measured pose to the first target, to the second,
      held there, to the third, and held there for ever. */
  lemma Go2Pose(ds: Durations, start: Joints, p1: Joints, p2: Joints, p3: Joints, t: nat, m: nat)
    requires |ds| == 4 && t > 0 && m < 12
    ensures var q := PoseAt(ds, [start, p1, p2, p2, p3], t)[m];
            var t1, t2, t3, t4 := ds[0], ds[0] + ds[1] - 1, ds[0] + ds[1] + ds[2] - 2, ds[0] + ds[1] + ds[2] + ds[3] - 3;
            && (t < t1 ==> q == Part(start[m], p1[m], t, ds[0]))
            && (t1 <= t < t2 ==> q == Part(p1[m], p2[m], t - t1 + 1, ds[1]))
            && (t2 <= t < t3 ==> q == p2[m])
            && (t3 <= t < t4 ==> q == Part(p2[m], p3[m], t - t3 + 1, ds[3]))
            && (t4 <= t ==> q == p3[m])
  {
    var ps: Poses := [start, p1, p2, p2, p3];
    StartTicks(ds);
    if t < ds[0] {
      PhasePose(ds, ps, 0, t, m);
    } else if t <= StartTick(ds, 2) {
      PhasePose(ds, ps, 1, t, m);
    } else if t <= StartTick(ds, 3) {
      PhasePose(ds, ps, 2, t, m);
    } else {
      PhasePose(ds, ps, 3, t, m);
    }
  }

  /** The same for B2, which goes on from the third target to the fourth. */
  lemma B2Pose(ds: Durations, start: Joints, p1: Joints, p2: Joints, p3: Joints, p4: Joints, t: nat, m: nat)
    requires |ds| == 5 && t > 0 && m < 12
    ensures var q := PoseAt(ds, [start, p1, p2, p2, p3, p4], t)[m];
            var t1, t2, t3, t4 := ds[0], ds[0] + ds[1] - 1, ds[0] + ds[1] + ds[2] - 2, ds[0] + ds[1] + ds[2] + ds[3] - 3;
            var t5 := t4 + ds[4] - 1;
            && (t < t1 ==> q == Part(start[m], p1[m], t, ds[0]))
            && (t1 <= t < t2 ==> q == Part(p1[m], p2[m], t - t1 + 1, ds[1]))
            && (t2 <= t < t3 ==> q == p2[m])
            && (t3 <= t < t4 ==> q == Part(p2[m], p3[m], t - t3 + 1, ds[3]))
            && (t4 <= t < t5 ==> q == Part(p3[m], p4[m], t - t4 + 1, ds[4]))
            && (t5 <= t ==> q == p4[m])
  {
    var ps: Poses := [start, p1, p2, p2, p3, p4];
    StartTicks(ds);
    if t < ds[0] {
      PhasePose(ds, ps, 0, t, m);
    } else if t <= StartTick(ds, 2) {
      PhasePose(ds, ps, 1, t, m);
    } else if t <= StartTick(ds, 3) {
      PhasePose(ds, ps, 2, t, m);
    } else if t <= StartTick(ds, 4) {
      PhasePose(ds, ps, 3, t, m);
    } else {
      PhasePose(ds, ps, 4, t, m);
    }
  }

  // ---------------------------------------------------------------- the ticks

  /** The four-phase example for Go2; `wheels` is set for the Go2-W variant, which also drives the wheels. */
  class Go2Stand {
    const ds: Durations
    const kp: real
    const kd: real
    const target1: Joints
    const target2: Joints
    const target3: Joints
    const wheels: bool

    var motiontime: nat
    var percent1: real
    var percent2: real
    var percent3: real
    var percent4: real
    var firstRun: bool
    var startPos: Joints
    var leg: LegCommand
    var wheel: WheelCommand

    ghost function Active(): nat
      reads this
    {
      if motiontime <= WAIT_TICKS then 0 else motiontime - WAIT_TICKS
    }

    ghost function PoseList(): Poses
      reads this
    {
      [startPos, target1, target2, target2, target3]
    }

    ghost predicate PercentsAt(t: nat)
      reads this
    {
      && |ds| == 4
      && percent1 == Percent(ds, 0, t) && percent2 == Percent(ds, 1, t)
      && percent3 == Percent(ds, 2, t) && percent4 == Percent(ds, 3, t)
    }

    /** The wheel command of tick `t`: untouched before the third phase and on robots without wheels. */
    ghost function WheelAt(t: nat): WheelCommand
      requires |ds| == 4
    {
      if wheels && t > StartTick(ds, 2) then WheelCommand(0.0, WheelSpeed(ds[2], t - StartTick(ds, 2)), 0.0, kd, 0.0)
      else WheelCommand(POS_STOP, VEL_STOP, 0.0, 0.0, 0.0)
    }

    /** Accumulators, leg command and wheel command are what the closed form says for the current tick. */
    ghost predicate Valid()
      reads this
    {
      && PercentsAt(Active())
      && (firstRun <==> Active() == 0)
      && (Active() > 0 ==> leg == LegCommand(PoseAt(ds, PoseList(), Active()), 0.0, kp, kd, 0.0))
      && wheel == WheelAt(Active())
    }

    constructor (ds: Durations, kp: real, kd: real, target1: Joints, target2: Joints, target3: Joints, wheels: bool)
      requires |ds| == 4
      ensures Valid() && Active() == 0 && this.ds == ds && this.kp == kp && this.kd == kd && this.wheels == wheels
      ensures this.target1 == target1 && this.target2 == target2 && this.target3 == target3
    {
      this.ds, this.kp, this.kd, this.wheels := ds, kp, kd, wheels;
      this.target1, this.target2, this.target3 := target1, target2, target3;
      motiontime, firstRun, startPos := 0, true, Fill(0.0);
      percent1, percent2, percent3, percent4 := 0.0, 0.0, 0.0, 0.0;
      leg := LegCommand(Fill(POS_STOP), VEL_STOP, 0.0, 0.0, 0.0);
      wheel := WheelCommand(POS_STOP, VEL_STOP, 0.0, 0.0, 0.0);
    }

    /** The wheels are driven from the tick that completes the second phase on, and untouched before. */
    lemma WheelIs()
      requires Valid()
      ensures var j := motiontime - 499 - (ds[0] + ds[1] - 2);
              wheel == if wheels && j > 0 then WheelCommand(0.0, WheelSpeed(ds[2], j), 0.0, kd, 0.0)
                       else WheelCommand(2146000000.0, 16000.0, 0.0, 0.0, 0.0)
    {
      StartTicks(ds);
    }

    /** The wheel blocks inside the third phase; `before` is the accumulator before this tick. */
    method DriveWheels(turn: bool, before: real, ghost t: nat)
      requires |ds| == 4 && before == Percent(ds, 2, t) && percent3 == Percent(ds, 2, t + 1) && wheel == WheelAt(t)
      requires turn <==> Percent(ds, 1, t + 1) == 1.0
      modifies this`wheel
      ensures wheel == WheelAt(t + 1)
    {
      PercentRange(ds, 2, t);
      PercentRange(ds, 2, t + 1);
      PercentRange(ds, 1, t + 1);
      if wheels && turn && before < 1.0 {
        if percent3 < 0.4 {
          wheel := WheelCommand(0.0, 3.0, 0.0, kd, 0.0);
        } else if percent3 >= 0.4 && percent3 < 0.8 {
          wheel := WheelCommand(0.0, -3.0, 0.0, kd, 0.0);
        } else if percent3 >= 0.8 {
          wheel := WheelCommand(0.0, 0.0, 0.0, kd, 0.0);
        }
      }
    }

    /** The accumulators and blocks of one active tick. */
    method ActiveTick(ghost t: nat)
      requires PercentsAt(t) && wheel == WheelAt(t)
      modifies this`percent1, this`percent2, this`percent3, this`percent4, this`leg, this`wheel
      ensures PercentsAt(t + 1)
      ensures leg == LegCommand(PoseAt(ds, PoseList(), t + 1), 0.0, kp, kd, 0.0)
      ensures wheel == WheelAt(t + 1)
    {
      ghost var ps := PoseList();
      Ordered(ds, t + 1);
      var q := leg.q;
      percent1, q := FirstBlock(ds, percent1, startPos, target1, q, ps, t);
      var turn2 := percent1 == 1.0;
      percent2, q := LaterBlock(ds, 1, turn2, percent2, target1, target2, q, ps, t);
      var turn3 := percent1 == 1.0 && percent2 == 1.0;
      var before := percent3;
      percent3, q := LaterBlock(ds, 2, turn3, percent3, target2, target2, q, ps, t);
      DriveWheels(turn3, before, t);
      var turn4 := percent1 == 1.0 && percent2 == 1.0 && percent3 == 1.0;
      percent4, q := LaterBlock(ds, 3, turn4, percent4, target2, target3, q, ps, t);
      leg := LegCommand(q, 0.0, kp, kd, 0.0);
    }

    /** One tick. `legPos` is the measured leg pose, read on the first active tick only. */
    method LowCmdWrite(legPos: Joints) returns (published: bool)
      requires Valid()
      modifies this
      ensures Valid() && motiontime == old(motiontime) + 1
      ensures published <==> motiontime >= 500
      ensures startPos == if motiontime == 500 then legPos else old(startPos)
      ensures published ==>
                leg == LegCommand(PoseAt(ds, [startPos, target1, target2, target2, target3], motiontime - 499), 0.0, kp, kd, 0.0)
    {
      published := false;
      ghost var t := Active();
      motiontime := motiontime + 1;
      if motiontime >= 500 {
        if firstRun {
          startPos := legPos;
          firstRun := false;
        }
        ActiveTick(t);
        published := true;
      }
    }
  }

  /** The five-phase example for B2. */
  class B2Stand {
    const ds: Durations
    const kp: real
    const kd: real
    const target1: Joints
    const target2: Joints
    const target3: Joints
    const target4: Joints

    var motiontime: nat
    var percent1: real
    var percent2: real
    var percent3: real
    var percent4: real
    var percent5: real
    var firstRun: bool
    var startPos: Joints
    var leg: LegCommand

    ghost function Active(): nat
      reads this
    {
      if motiontime <= WAIT_TICKS then 0 else motiontime - WAIT_TICKS
    }

    ghost function PoseList(): Poses
      reads this
    {
      [startPos, target1, target2, target2, target3, target4]
    }

    ghost predicate PercentsAt(t: nat)
      reads this
    {
      && |ds| == 5
      && percent1 == Percent(ds, 0, t) && percent2 == Percent(ds, 1, t) && percent3 == Percent(ds, 2, t)
      && percent4 == Percent(ds, 3, t) && percent5 == Percent(ds, 4, t)
    }

    ghost predicate Valid()
      reads this
    {
      && PercentsAt(Active())
      && (firstRun <==> Active() == 0)
      && (Active() > 0 ==> leg == LegCommand(PoseAt(ds, PoseList(), Active()), 0.0, kp, kd, 0.0))
    }

    constructor (ds: Durations, kp: real, kd: real, target1: Joints, target2: Joints, target3: Joints, target4: Joints)
      requires |ds| == 5
      ensures Valid() && Active() == 0 && this.ds == ds && this.kp == kp && this.kd == kd
      ensures this.target1 == target1 && this.target2 == target2 && this.target3 == target3 && this.target4 == target4
    {
      this.ds, this.kp, this.kd := ds, kp, kd;
      this.target1, this.target2, this.target3, this.target4 := target1, target2, target3, target4;
      motiontime, firstRun, startPos := 0, true, Fill(0.0);
      percent1, percent2, percent3, percent4, percent5 := 0.0, 0.0, 0.0, 0.0, 0.0;
      leg := LegCommand(Fill(POS_STOP), VEL_STOP, 0.0, 0.0, 0.0);
    }

    method ActiveTick(ghost t: nat)
      requires PercentsAt(t)
      modifies this`percent1, this`percent2, this`percent3, this`percent4, this`percent5, this`leg
      ensures PercentsAt(t + 1)
      ensures leg == LegCommand(PoseAt(ds, PoseList(), t + 1), 0.0, kp, kd, 0.0)
    {
      ghost var ps := PoseList();
      Ordered(ds, t + 1);
      var q := leg.q;
      percent1, q := FirstBlock(ds, percent1, startPos, target1, q, ps, t);
      var turn2 := percent1 == 1.0;
      percent2, q := LaterBlock(ds, 1, turn2, percent2, target1, target2, q, ps, t);
      var turn3 := percent1 == 1.0 && percent2 == 1.0;
      percent3, q := LaterBlock(ds, 2, turn3, percent3, target2, target2, q, ps, t);
      var turn4 := percent1 == 1.0 && percent2 == 1.0 && percent3 == 1.0;
      percent4, q := LaterBlock(ds, 3, turn4, percent4, target2, target3, q, ps, t);
      var turn5 := percent1 == 1.0 && percent2 == 1.0 && percent3 == 1.0 && percent4 == 1.0;
      percent5, q := LaterBlock(ds, 4, turn5, percent5, target3, target4, q, ps, t);
      leg := LegCommand(q, 0.0, kp, kd, 0.0);
    }

    method LowCmdWrite(legPos: Joints) returns (published: bool)
      requires Valid()
      modifies this
      ensures Valid() && motiontime == old(motiontime) + 1
      ensures published <==> motiontime >= 500
      ensures startPos == if motiontime == 500 then legPos else old(startPos)
      ensures published ==>
                leg == LegCommand(PoseAt(ds, [startPos, target1, target2, target2, target3, target4], motiontime - 499), 0.0, kp, kd, 0.0)
    {
      published := false;
      ghost var t := Active();
      motiontime := motiontime + 1;
      if motiontime >= 500 {
        if firstRun {
          startPos := legPos;
          firstRun := false;
        }
        ActiveTick(t);
        published := true;
      }
    }
  }

  /** With the durations in the code the last phase is complete at active tick 2897 (Go2), 3897 (Go2-W) and 3996 (B2),
      not earlier. */
  lemma ShippedDurations(t: nat)
    ensures Percent([500, 500, 1000, 900], 3, t) == 1.0 <==> t >= 2897
    ensures Percent([500, 500, 2000, 900], 3, t) == 1.0 <==> t >= 3897
    ensures Percent([500, 900, 1000, 1100, 500], 4, t) == 1.0 <==> t >= 3996
  {
    var a: Durations, b: Durations, c: Durations := [500, 500, 1000, 900], [500, 500, 2000, 900], [500, 900, 1000, 1100, 500];
    CompletionTick(a, t);
    CompletionTick(b, t);
    CompletionTick(c, t);
    SumOf4(500, 500, 1000, 900);
    SumOf4(500, 500, 2000, 900);
    SumOf4(500, 900, 1000, 1100);
    assert c[..4] == [500, 900, 1000, 1100];
  }

  lemma SumOf4(a: nat, b: nat, c: nat, d: nat)
    ensures Sum([a, b, c, d]) == a + b + c + d
  {
    assert [a, b, c, d][..3] == [a, b, c] && [a, b, c][..2] == [a, b] && [a, b][..1] == [a] && [a][..0] == [];
    assert Sum([a]) == a;
    assert Sum([a, b]) == a + b;
  }
}
