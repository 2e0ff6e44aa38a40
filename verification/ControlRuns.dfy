/** Safety of the low-level controller over every run, for every gamepad input and every user controller. */
module ControlRuns {
  import opened LowCommand
  import opened ControlSpec

  // ---------------------------------------------------------------- the invariant

  /** Zero velocity and torque targets, and per mode the pose or the gains. */
  ghost predicate Inv(p: Params, c: Control) {
    && 0.0 <= c.machine.pd <= 1.0
    && c.target.jvelDes == Fill(0.0) && c.target.tauFf == Fill(0.0)
    && match c.machine.mode
       case Damping => c.machine.pd == 0.0
       case Stand => c.target.jposDes == p.initPos
       case Ctrl => c.machine.pd > CTRL_THRESHOLD && c.target.kp == Fill(p.kp) && c.target.kd == Fill(p.kd)
  }

  lemma StartInv(p: Params, pad: Pad)
    ensures Inv(p, Start(p, pad))
  {
  }

  lemma UpdatedInv(p: Params, c: Control)
    requires Inv(p, c)
    ensures Inv(p, Updated(p, c))
  {
    assert Inv(p, AfterR2(p, c));
    assert Inv(p, AfterA(p, AfterR2(p, c)));
  }

  lemma StepInv(p: Params, c: Control, i: Input)
    requires Inv(p, c)
    ensures Inv(p, Step(p, c, i))
  {
    UpdatedInv(p, c.(pad := c.pad.Updated(i.keys)));
  }

  // ---------------------------------------------------------------- one step, as a table

  /** Each button is compared with its own sample. */
  lemma PadUpdated(pad: Pad, keys: Keys)
    ensures var q := pad.Updated(keys);
            && q.r1.pressed == keys.r1 && q.r2.pressed == keys.r2 && q.l2.pressed == keys.l2
            && q.a.pressed == keys.a && q.b.pressed == keys.b
            && (q.r2.onPress <==> keys.r2 && !pad.r2.pressed) && (q.a.onPress <==> keys.a && !pad.a.pressed)
  {
  }

  /** The ratio after a step in STAND: R2 raises it by 0.005 up to one, then R1 lowers it by 0.005 down to zero. */
  function RatioAfter(pd: real, keys: Keys): real {
    var up := if !keys.r2 then pd else if pd + 0.005 > 1.0 then 1.0 else pd + 0.005;
    if !keys.r1 then up else if up - 0.005 < 0.0 then 0.0 else up - 0.005
  }

  /** Mode and ratio after any step, case by case: stop; CTRL entered or kept, unless a fall; STAND; DAMPING. */
  lemma StepMachine(p: Params, c: Control, i: Input)
    requires 0.0 <= c.machine.pd <= 1.0
    ensures var k, pd := i.keys, c.machine.pd;
            var r2Edge, aEdge := k.r2 && !c.pad.r2.pressed, k.a && !c.pad.a.pressed;
            var stands := c.machine.mode == Stand || r2Edge;
            Step(p, c, i).machine ==
            if k.l2 && k.b then Machine(Damping, 0.0)
            else if (stands && aEdge && pd > 0.95) || (c.machine.mode == Ctrl && !r2Edge) then
              (if i.fallen then Machine(Damping, 0.0) else Machine(Ctrl, pd))
            else if stands then Machine(Stand, RatioAfter(pd, k))
            else Machine(Damping, pd)
  {
  }

  /** When the user controller is reset: A goes down above the threshold, in STAND or with R2 going down. */
  lemma ResetWhen(p: Params, c: Control, keys: Keys)
    ensures EntersCtrl(p, c.(pad := c.pad.Updated(keys))) <==>
            keys.a && !c.pad.a.pressed && c.machine.pd > 0.95 && (c.machine.mode == Stand || (keys.r2 && !c.pad.r2.pressed))
  {
  }

  /** Where the controller starts. */
  lemma StartIs(p: Params, pad: Pad)
    ensures Start(p, pad) == Control(Machine(Stand, 0.1), pad, Settings(p.initPos, Fill(0.0), Fill(0.0), Fill(2.0), Fill(0.0)))
  {
  }

  // ---------------------------------------------------------------- runs

  /** A run from any state: `states[k + 1]` is the state after the step that read `inputs[k]`. */
  ghost predicate IsRun(p: Params, states: seq<Control>, inputs: seq<Input>) {
    && |states| == |inputs| + 1
    && forall k :: 0 <= k < |inputs| ==> states[k + 1] == Step(p, states[k], inputs[k])
  }

  lemma {:induction false} RunInv(p: Params, states: seq<Control>, inputs: seq<Input>, n: nat)
    requires IsRun(p, states, inputs) && Inv(p, states[0]) && n < |states|
    ensures Inv(p, states[n])
  {
    if n > 0 {
      RunInv(p, states, inputs, n - 1);
      StepInv(p, states[n - 1], inputs[n - 1]);
    }
  }

  // ---------------------------------------------------------------- what a step may command

  /** Every command of every run is damping, a scaled stand in the initial pose, or the user
      controller's targets of that very step with the configured gains, and the last only above the threshold. */
  lemma CommandKinds(p: Params, states: seq<Control>, inputs: seq<Input>, n: nat)
    requires IsRun(p, states, inputs) && Inv(p, states[0]) && n < |inputs|
    ensures var c, i, u := states[n + 1], inputs[n], Updated(p, states[n].(pad := states[n].pad.Updated(inputs[n].keys)));
            match u.machine.mode
            case Damping => c.target == Settings(p.initPos, Fill(0.0), Fill(0.0), Fill(2.0), Fill(0.0))
            case Stand => c.target == Settings(p.initPos, Fill(0.0), Fill(40.0 * c.machine.pd), Fill(c.machine.pd), Fill(0.0))
            case Ctrl => c.target == Settings(i.userJpos, Fill(0.0), Fill(p.kp), Fill(p.kd), Fill(0.0)) &&
                         states[n].machine.pd > 0.95
  {
    RunInv(p, states, inputs, n);
    UpdatedInv(p, states[n].(pad := states[n].pad.Updated(inputs[n].keys)));
  }

  /** Whatever the state and whatever else is pressed, L2 and B held together command damping in that same step. */
  lemma EmergencyStop(p: Params, c: Control, i: Input)
    requires i.keys.l2 && i.keys.b
    ensures Step(p, c, i).target == Settings(p.initPos, Fill(0.0), Fill(0.0), Fill(2.0), Fill(0.0))
    ensures Step(p, c, i).machine == Machine(Damping, 0.0)
  {
  }

  /** After a fall in CTRL the machine is stopped, and whatever is pressed and whatever the user controller
      wants, the next command holds the initial pose with stiffness at most 40 * 0.005 and zero velocity and torque. */
  lemma AfterFall(p: Params, c: Control, i: Input, next: Input)
    requires Inv(p, c)
    requires Updated(p, c.(pad := c.pad.Updated(i.keys))).machine.mode == Ctrl && i.fallen
    ensures var c1 := Step(p, c, i);
            var c2 := Step(p, c1, next);
            && c1.machine == Machine(Damping, 0.0)
            && c2.machine.mode != Ctrl
            && c2.target.jposDes == p.initPos && c2.target.jvelDes == Fill(0.0) && c2.target.tauFf == Fill(0.0)
            && exists k :: 0.0 <= k <= 0.2 && c2.target.kp == Fill(k)
  {
    StepInv(p, c, i);
    var c1 := Step(p, c, i);
    var c2 := Step(p, c1, next);
    StepInv(p, c1, next);
    assert c2.target.kp == Fill(if c2.machine.mode == Stand then 40.0 * c2.machine.pd else 0.0);
  }

  // ---------------------------------------------------------------- the ramp

  /** Step `k` ran `Standing` with R2 held. */
  predicate HeldAt(states: seq<Control>, inputs: seq<Input>, k: nat)
    requires |states| == |inputs| + 1 && k < |inputs|
  {
    states[k + 1].machine.mode == Stand && inputs[k].keys.r2
  }

  function Held(states: seq<Control>, inputs: seq<Input>, lo: nat, hi: nat): nat
    requires |states| == |inputs| + 1 && lo <= hi <= |inputs|
  {
    if lo == hi then 0
    else Held(states, inputs, lo, hi - 1) + if HeldAt(states, inputs, hi - 1) then 1 else 0
  }

  lemma StepRamp(p: Params, c: Control, i: Input)
    requires Inv(p, c)
    ensures var d := Step(p, c, i);
            d.machine.pd <= c.machine.pd + if d.machine.mode == Stand && i.keys.r2 then DELTA_PD else 0.0
  {
  }

  /** The ratio rises only in STAND steps with R2 held, by one increment each. */
  lemma {:induction false} RampBound(p: Params, states: seq<Control>, inputs: seq<Input>, lo: nat, hi: nat)
    requires IsRun(p, states, inputs) && Inv(p, states[0]) && lo <= hi <= |inputs|
    ensures states[hi].machine.pd <= states[lo].machine.pd + 0.005 * Held(states, inputs, lo, hi) as real
  {
    if lo < hi {
      RampBound(p, states, inputs, lo, hi - 1);
      RunInv(p, states, inputs, hi - 1);
      StepRamp(p, states[hi - 1], inputs[hi - 1]);
    }
  }

  /** Between two consecutive STAND commands every stiffness moves by at most 40 * 0.005. */
  lemma RampRate(p: Params, c: Control, i: Input, j: Input, m: nat)
    requires Inv(p, c) && m < JOINTS
    requires Step(p, c, i).machine.mode == Stand && Step(p, Step(p, c, i), j).machine.mode == Stand
    ensures var k1, k2 := Step(p, c, i).target.kp[m], Step(p, Step(p, c, i), j).target.kp[m];
            -0.2 <= k2 - k1 <= 0.2
  {
    StepInv(p, c, i);
    var d := Step(p, c, i);
    assert d.target.kp == Fill(40.0 * d.machine.pd);
    var e := Step(p, d, j);
    assert e.target.kp == Fill(40.0 * e.machine.pd);
  }

  // ---------------------------------------------------------------- re-entering CTRL

  lemma LeaveDamping(p: Params, c: Control, i: Input)
    requires Inv(p, c) && c.machine.mode == Damping && Step(p, c, i).machine.mode != Damping
    ensures Step(p, c, i).machine.mode == Stand && Step(p, c, i).pad.r2.onPress
  {
  }

  lemma EnterCtrl(p: Params, c: Control, i: Input)
    requires Inv(p, c) && c.machine.mode != Ctrl && Step(p, c, i).machine.mode == Ctrl
    ensures c.machine.mode == Stand && c.machine.pd > CTRL_THRESHOLD && Step(p, c, i).pad.a.onPress
  {
  }

  /** The first entry into CTRL after state `i`. */
  lemma FirstCtrl(states: seq<Control>, i: nat, n: nat) returns (m: nat)
    requires i < n < |states| && states[i].machine.mode != Ctrl && states[n].machine.mode == Ctrl
    ensures i < m <= n && states[m].machine.mode == Ctrl
    ensures forall k :: i <= k < m ==> states[k].machine.mode != Ctrl
  {
    m := i + 1;
    while states[m].machine.mode != Ctrl
      invariant i < m <= n
      invariant forall k :: i <= k < m ==> states[k].machine.mode != Ctrl
      decreases n - m
    {
      m := m + 1;
    }
  }

  /** The last DAMPING state before state `m`. */
  lemma LastDamping(states: seq<Control>, i: nat, m: nat) returns (r: nat)
    requires i < m < |states| && states[i].machine.mode == Damping
    ensures i <= r < m && states[r].machine.mode == Damping
    ensures forall k :: r < k < m ==> states[k].machine.mode != Damping
  {
    r := m - 1;
    while states[r].machine.mode != Damping
      invariant i <= r < m
      invariant forall k :: r < k < m ==> states[k].machine.mode != Damping
      decreases r
    {
      r := r - 1;
    }
  }

  /** Getting from any stop at step `i` back to CTRL at step `n` takes, in this order, an R2 rising edge (after
      step `r`), at least 191 STAND steps with R2 held, and an A rising edge (after step `a`), with STAND throughout. */
  lemma ReenterCtrl(p: Params, states: seq<Control>, inputs: seq<Input>, i: nat, n: nat) returns (r: nat, a: nat)
    requires IsRun(p, states, inputs) && Inv(p, states[0]) && i < n < |states|
    requires states[i].machine.mode == Damping && states[n].machine.mode == Ctrl
    ensures i <= r < a < n
    ensures states[r].machine.mode == Damping && states[r + 1].pad.r2.onPress
    ensures forall k :: r < k <= a ==> states[k].machine.mode == Stand
    ensures Held(states, inputs, r, a) >= 191
    ensures states[a + 1].machine.mode == Ctrl && states[a + 1].pad.a.onPress
  {
    var m := FirstCtrl(states, i, n);
    r := LastDamping(states, i, m);
    a := m - 1;
    RunInv(p, states, inputs, a);
    EnterCtrl(p, states[a], inputs[a]);
    RunInv(p, states, inputs, r);
    assert states[r + 1].machine.mode != Damping;
    LeaveDamping(p, states[r], inputs[r]);
    RampBound(p, states, inputs, r, a);
  }

  /** 191 such steps suffice: holding R2 from a stop, then pressing A, reaches CTRL. */
  lemma {:induction false} RampReaches(p: Params, c: Control, n: nat) returns (states: seq<Control>, inputs: seq<Input>)
    requires Inv(p, c) && c.machine.mode == Damping && !c.pad.r2.pressed
    requires n <= 200
    ensures IsRun(p, states, inputs) && |inputs| == n && states[0] == c
    ensures forall k :: 0 <= k < n ==> inputs[k].keys == Keys(false, true, false, false, false)
    ensures n > 0 ==> states[n].machine == Machine(Stand, 0.005 * n as real)
    ensures n > 0 ==> states[n].pad.r2.pressed && !states[n].pad.a.pressed
    ensures n == 0 ==> states[n] == c
  {
    if n == 0 {
      states, inputs := [c], [];
    } else {
      states, inputs := RampReaches(p, c, n - 1);
      var i := Input(Keys(false, true, false, false, false), p.initPos, false);
      var last := states[n - 1];
      states, inputs := states + [Step(p, last, i)], inputs + [i];
    }
  }

  lemma ShortestReentry(p: Params, c: Control) returns (states: seq<Control>, inputs: seq<Input>)
    requires Inv(p, c) && c.machine.mode == Damping && !c.pad.r2.pressed
    ensures IsRun(p, states, inputs) && |inputs| == 192 && states[0] == c
    ensures states[192].machine.mode == Ctrl
  {
    states, inputs := RampReaches(p, c, 191);
    var i := Input(Keys(false, true, false, true, false), p.initPos, false);
    var last := states[191];
    states, inputs := states + [Step(p, last, i)], inputs + [i];
  }
}
