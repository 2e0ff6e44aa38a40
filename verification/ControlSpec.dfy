/** What one pass of the low-level controller computes, as a function of its state and inputs.

    Floating-point values are reals. The user controller is any source of joint targets.
 */
module ControlSpec {
  import opened LowCommand

  // ---------------------------------------------------------------- the mode machine

  datatype Mode = Damping | Stand | Ctrl

  const PD_INIT: real := 0.1
  const DELTA_PD: real := 0.005
  const CTRL_THRESHOLD: real := 0.95

  datatype Machine = Machine(mode: Mode, pd: real) {

    function Stopped(): Machine {
      Machine(Damping, 0.0)
    }

    predicate CanStand() {
      mode == Damping || mode == Ctrl
    }

    predicate CanCtrl() {
      mode == Stand && pd > CTRL_THRESHOLD
    }

    /** One ramp step, clamped to [0, 1]; nothing outside STAND. */
    function Ramped(up: bool): Machine {
      if mode == Stand then Machine(mode, Clamp(if up then pd + DELTA_PD else pd - DELTA_PD)) else this
    }
  }

  function Clamp(x: real): real {
    if x < 0.0 then 0.0 else if x > 1.0 then 1.0 else x
  }

  // ---------------------------------------------------------------- the gamepad

  datatype Button = Button(pressed: bool, onPress: bool, onRelease: bool) {

    function Updated(state: bool): (b: Button)
      ensures b.pressed == state
      ensures b.onPress <==> state && !pressed
      ensures b.onRelease <==> !state && pressed
    {
      Button(state,
             if state then state != pressed else false,
             if state then false else state != pressed)
    }
  }

  /** The buttons the controller looks at. */
  datatype Pad = Pad(r1: Button, r2: Button, l2: Button, a: Button, b: Button) {

    function Updated(keys: Keys): Pad {
      Pad(r1.Updated(keys.r1), r2.Updated(keys.r2), l2.Updated(keys.l2), a.Updated(keys.a), b.Updated(keys.b))
    }
  }

  datatype Keys = Keys(r1: bool, r2: bool, l2: bool, a: bool, b: bool)

  // ---------------------------------------------------------------- one control step

  datatype Params = Params(kp: real, kd: real, initPos: Joints)

  /** What a step reads from outside: the sampled keys, the user controller's targets, the fall check. */
  datatype Input = Input(keys: Keys, userJpos: Joints, fallen: bool)

  /** `target` is what the last completed step handed to `SetCommand`. */
  datatype Control = Control(machine: Machine, pad: Pad, target: Settings)

  /** A gain scaled by the ramp. */
  function Scaled(gain: real, pd: real): real {
    gain * pd
  }

  function DampingSettings(p: Params): Settings {
    Settings(p.initPos, Fill(0.0), Fill(0.0), Fill(2.0), Fill(0.0))
  }

  /** Targets of `StandCallback`. */
  function StandEntry(p: Params, pd: real): Settings {
    Settings(p.initPos, Fill(0.0), Fill(Scaled(p.kp, pd)), Fill(Scaled(p.kd, pd)), Fill(0.0))
  }

  /** Targets of `CtrlCallback`. */
  function CtrlEntry(p: Params): Settings {
    Settings(p.initPos, Fill(0.0), Fill(p.kp), Fill(p.kd), Fill(0.0))
  }

  /** The first test: R2 going down asks for STAND. */
  function AfterR2(p: Params, c: Control): Control {
    if c.pad.r2.onPress && c.machine.CanStand() then
      c.(machine := c.machine.(mode := Stand), target := StandEntry(p, c.machine.pd))
    else c
  }

  /** The second: A going down asks for CTRL. */
  function AfterA(p: Params, c: Control): Control {
    if c.pad.a.onPress && c.machine.CanCtrl() then
      c.(machine := c.machine.(mode := Ctrl), target := CtrlEntry(p))
    else c
  }

  /** Whether the second test runs `CtrlCallback`, which resets the user controller (even if the third test stops). */
  predicate EntersCtrl(p: Params, c: Control) {
    var u := AfterR2(p, c);
    u.pad.a.onPress && u.machine.CanCtrl()
  }

  /** The third: L2 and B held together stop. */
  function AfterStop(c: Control): Control {
    if c.pad.l2.pressed && c.pad.b.pressed then c.(machine := c.machine.Stopped()) else c
  }

  /** `UpdateStateMachine` */
  function Updated(p: Params, c: Control): Control {
    AfterStop(AfterA(p, AfterR2(p, c)))
  }

  /** The two ramp steps at the start of `Standing`: R2 up, then R1 down. */
  function RampedMachine(c: Control): Machine {
    var up := if c.pad.r2.pressed then c.machine.Ramped(true) else c.machine;
    if c.pad.r1.pressed then up.Ramped(false) else up
  }

  function Standing(c: Control): Control {
    var m := RampedMachine(c);
    c.(machine := m, target := c.target.(kp := Fill(Scaled(40.0, m.pd)), kd := Fill(Scaled(1.0, m.pd))))
  }

  function UserControl(c: Control, i: Input): Control {
    var m := if i.fallen then c.machine.Stopped() else c.machine;
    c.(machine := m, target := c.target.(jposDes := i.userJpos))
  }

  function Dispatch(p: Params, c: Control, i: Input): Control {
    match c.machine.mode
    case Stand => Standing(c)
    case Damping => c.(target := DampingSettings(p))
    case Ctrl => UserControl(c, i)
  }

  /** `ControlStep`, up to the call of `SetCommand`. */
  function Step(p: Params, c: Control, i: Input): Control {
    Dispatch(p, Updated(p, c.(pad := c.pad.Updated(i.keys))), i)
  }

  /** After `StartControl`: the machine is as constructed, the settings are those of `Damping`. */
  function Start(p: Params, pad: Pad): Control {
    Control(Machine(Stand, PD_INIT), pad, DampingSettings(p))
  }
}
