/** The controller's objects, with their fields updated in place, proved against `ControlSpec`. */
module RobotController {
  import opened Words
  import opened LowCommand
  import opened ControlSpec
  import Crc32
  import Gravity

  class SimpleStateMachine {
    var state: Mode
    var pdRatio: real

    constructor ()
      ensures Value() == Machine(Mode.Stand, PD_INIT)
    {
      state, pdRatio := Mode.Stand, PD_INIT;
    }

    ghost function Value(): Machine
      reads this
    {
      Machine(state, pdRatio)
    }

    method Stop() returns (ok: bool)
      modifies this
      ensures ok && Value() == old(Value()).Stopped()
    {
      state := Damping;
      pdRatio := 0.0;
      ok := true;
    }

    method Stand() returns (ok: bool)
      modifies this
      ensures ok == old(Value()).CanStand()
      ensures Value() == if ok then old(Value()).(mode := Mode.Stand) else old(Value())
    {
      if state == Damping || state == Mode.Ctrl {
        state := Mode.Stand;
        ok := true;
      } else {
        ok := false;
      }
    }

    method Ctrl() returns (ok: bool)
      modifies this
      ensures ok == old(Value()).CanCtrl()
      ensures Value() == if ok then old(Value()).(mode := Mode.Ctrl) else old(Value())
    {
      if state == Mode.Stand && pdRatio > CTRL_THRESHOLD {
        state := Mode.Ctrl;
        ok := true;
      } else {
        ok := false;
      }
    }

    method Standing(up: bool)
      modifies this
      ensures Value() == old(Value()).Ramped(up)
    {
      if state == Mode.Stand {
        if up {
          pdRatio := pdRatio + DELTA_PD;
        } else {
          pdRatio := pdRatio - DELTA_PD;
        }
        pdRatio := Clamp(pdRatio);
      }
    }
  }

  class Gamepad {
    var r1: Button
    var r2: Button
    var l2: Button
    var a: Button
    var b: Button

    constructor ()
      ensures Value() == Pad(RELEASED, RELEASED, RELEASED, RELEASED, RELEASED)
    {
      r1, r2, l2, a, b := RELEASED, RELEASED, RELEASED, RELEASED, RELEASED;
    }

    ghost function Value(): Pad
      reads this
    {
      Pad(r1, r2, l2, a, b)
    }

    method Update(keys: Keys)
      modifies this
      ensures Value() == old(Value()).Updated(keys)
    {
      r1 := r1.Updated(keys.r1);
      r2 := r2.Updated(keys.r2);
      l2 := l2.Updated(keys.l2);
      a := a.Updated(keys.a);
      b := b.Updated(keys.b);
    }
  }

  const RELEASED: Button := Button(false, false, false)

  /** One state message: the inertial unit and the twenty motors. */
  datatype LowState = LowState(quaternion: Gravity.Quat, rpy: Gravity.Vec3, gyroscope: Gravity.Vec3, q: seq<real>, dq: seq<real>, tauEst: seq<real>)

  /** What `GetState` fills in. */
  datatype Sensed = Sensed(jpos: Joints, jvel: Joints, tau: Joints, quat: Gravity.Quat, rpy: Gravity.Vec3, gyro: Gravity.Vec3,
                           projectedGravity: Gravity.Vec3)

  class RobotInterface {
    const enc: FloatBits
    var jpos: Joints
    var jvel: Joints
    var tau: Joints
    var quat: Gravity.Quat
    var rpy: Gravity.Vec3
    var gyro: Gravity.Vec3
    var projectedGravity: Gravity.Vec3
    var jposDes: Joints
    var jvelDes: Joints
    var kp: Joints
    var kd: Joints
    var tauFf: Joints
    const lowCmd: array<Word>

    ghost function Value(): Settings
      reads this
    {
      Settings(jposDes, jvelDes, kp, kd, tauFf)
    }

    function Sensors(): Sensed
      reads this
    {
      Sensed(jpos, jvel, tau, quat, rpy, gyro, projectedGravity)
    }

    /** Outside the settings, `lowCmd` still holds what `InitLowCmd` wrote. */
    ghost predicate Valid()
      reads this, lowCmd
    {
      lowCmd.Length == WORDS &&
      forall j :: 0 <= j < WORDS - 1 && !IsSetting(j) ==> lowCmd[j] == InitialWord(enc, j)
    }

    constructor (enc: FloatBits)
      ensures Valid() && fresh(lowCmd) && this.enc == enc
      ensures Value() == Settings(Fill(0.0), Fill(0.0), Fill(0.0), Fill(0.0), Fill(0.0))
      ensures projectedGravity == Gravity.Vec3(0.0, 0.0, -1.0)
    {
      this.enc := enc;
      jposDes, jvelDes, kp, kd, tauFf := Fill(0.0), Fill(0.0), Fill(0.0), Fill(0.0), Fill(0.0);
      jpos, jvel, tau := Fill(0.0), Fill(0.0), Fill(0.0);
      quat, rpy, gyro := Gravity.Quat(0.0, 0.0, 0.0, 0.0), Gravity.Vec3(0.0, 0.0, 0.0), Gravity.Vec3(0.0, 0.0, 0.0);
      projectedGravity := Gravity.Vec3(0.0, 0.0, -1.0);
      lowCmd := new Word[WORDS](j requires 0 <= j => InitialWord(enc, j));
    }

    /** Reads the first twelve motors and recomputes the gravity direction. */
    method GetState(state: LowState)
      requires |state.q| == |state.dq| == |state.tauEst| == MOTORS
      modifies this`jpos, this`jvel, this`tau, this`quat, this`rpy, this`gyro, this`projectedGravity
      ensures quat == state.quaternion && rpy == state.rpy && gyro == state.gyroscope && projectedGravity == Gravity.Projected(quat)
      ensures jpos == state.q[..JOINTS] && jvel == state.dq[..JOINTS] && tau == state.tauEst[..JOINTS]
      ensures Gravity.Fallen(projectedGravity) <==>
              var q := state.quaternion; q.x * q.x + q.y * q.y > q.w * q.w + q.z * q.z
    {
      quat, rpy, gyro := state.quaternion, state.rpy, state.gyroscope;
      projectedGravity := Gravity.Projected(quat);
      Gravity.FallenIff(state.quaternion);
      for i := 0 to JOINTS
        modifies this`jpos, this`jvel, this`tau
        invariant jpos[..i] == state.q[..i] && jvel[..i] == state.dq[..i] && tau[..i] == state.tauEst[..i]
      {
        jpos := jpos[i := state.q[i]];
        jvel := jvel[i := state.dq[i]];
        tau := tau[i := state.tauEst[i]];
      }
    }

    /** The settings of the first `n` joints are in place. */
    ghost predicate Written(n: nat)
      reads this, lowCmd
    {
      Valid() &&
      forall m, f {:trigger Slot(m, f)} :: 0 <= m < n <= JOINTS && 1 <= f <= 5 ==> lowCmd[Slot(m, f)] == enc(Component(Value(), f)[m])
    }

    /** The body of the settings loop of `SetCommand`: five words of one leg motor. */
    method WriteMotor(i: nat)
      requires i < JOINTS && Written(i)
      modifies lowCmd
      ensures Written(i + 1)
    {
      var at := Slot(i, 0);
      ghost var was := lowCmd[..];
      lowCmd[at + 1] := enc(jposDes[i]);
      lowCmd[at + 2] := enc(jvelDes[i]);
      lowCmd[at + 4] := enc(kp[i]);
      lowCmd[at + 5] := enc(kd[i]);
      lowCmd[at + 3] := enc(tauFf[i]);
      MotorWritten(was, lowCmd[..], i);
    }

    /** Changing only the five words of joint `i` to its settings extends the written part by one joint. */
    lemma MotorWritten(was: seq<Word>, now: seq<Word>, i: nat)
      requires i < JOINTS && |was| == WORDS && now == lowCmd[..]
      requires now == was[Slot(i, 1) := enc(jposDes[i])][Slot(i, 2) := enc(jvelDes[i])][Slot(i, 3) := enc(tauFf[i])]
                         [Slot(i, 4) := enc(kp[i])][Slot(i, 5) := enc(kd[i])]
      requires forall j :: 0 <= j < WORDS - 1 && !IsSetting(j) ==> was[j] == InitialWord(enc, j)
      requires forall m, f {:trigger Slot(m, f)} :: 0 <= m < i && 1 <= f <= 5 ==> was[Slot(m, f)] == enc(Component(Value(), f)[m])
      ensures Written(i + 1)
    {
      forall j | 0 <= j < WORDS - 1 && !IsSetting(j) ensures now[j] == InitialWord(enc, j) {
        forall f: nat | 1 <= f <= 5 ensures j != Slot(i, f) {
          SlotIsSetting(i, f);
        }
        assert j != Slot(i, 1) && j != Slot(i, 2) && j != Slot(i, 3) && j != Slot(i, 4) && j != Slot(i, 5);
      }
      forall m, f | 0 <= m < i + 1 && 1 <= f <= 5 ensures now[Slot(m, f)] == enc(Component(Value(), f)[m]) {
        if m < i {
          assert Slot(m, f) < Slot(i, 1);
        }
      }
    }

    lemma WrittenBody()
      requires Written(JOINTS)
      ensures lowCmd[..WORDS - 1] == Body(enc, Value())
    {
      forall j | 0 <= j < WORDS - 1 ensures lowCmd[j] == Body(enc, Value())[j] {
        if IsSetting(j) {
          assert j == Slot(Motor(j), Field(j));
        }
      }
    }

    /** Writes the settings, stamps the checksum and copies the command out. */
    method SetCommand(cmd: array<Word>)
      requires Valid() && cmd.Length == WORDS && cmd != lowCmd
      modifies lowCmd, cmd
      ensures Valid()
      ensures cmd[..] == Command(enc, Value())
      ensures Crc32.Crc(cmd[..]) == Zeros()
    {
      for i := 0 to JOINTS
        modifies lowCmd
        invariant Written(i)
      {
        WriteMotor(i);
      }
      WrittenBody();
      ghost var body := lowCmd[..WORDS - 1];
      var crc := Crc32.Crc32Core(lowCmd, WORDS - 1);
      lowCmd[WORDS - 1] := crc;
      assert lowCmd[..WORDS - 1] == body;
      assert lowCmd[..] == body + [crc];
      CopyWords(lowCmd, cmd);
      CommandResidue(enc, Value());
    }
  }

  /** The assignment of one whole command to another. */
  method CopyWords(from: array<Word>, to: array<Word>)
    requires from.Length == to.Length && from != to
    modifies to
    ensures to[..] == from[..]
  {
    for j := 0 to from.Length
      invariant to[..j] == from[..j]
    {
      to[j] := from[j];
    }
  }

  /** The user controller, as far as it takes input; what it calculates from it is arbitrary. */
  class UserController {
    var input: Sensed

    constructor ()
    {
      input := Sensed(Fill(0.0), Fill(0.0), Fill(0.0), Gravity.Quat(0.0, 0.0, 0.0, 0.0), Gravity.Vec3(0.0, 0.0, 0.0),
                      Gravity.Vec3(0.0, 0.0, 0.0), Gravity.Vec3(0.0, 0.0, 0.0));
    }

    method GetInput(robotInterface: RobotInterface)
      modifies this
      ensures var r := robotInterface; input == Sensed(r.jpos, r.jvel, r.tau, r.quat, r.rpy, r.gyro, r.projectedGravity)
    {
      input := robotInterface.Sensors();
    }
  }

  class RobotController {
    const params: Params
    const ctrl: UserController
    const stateMachine: SimpleStateMachine
    const gamepad: Gamepad
    const robotInterface: RobotInterface
    const cmd: array<Word>

    ghost predicate Valid()
      reads this, robotInterface, robotInterface.lowCmd
    {
      robotInterface.Valid() && cmd.Length == WORDS && cmd != robotInterface.lowCmd
    }

    ghost function Value(): Control
      reads stateMachine, gamepad, robotInterface
    {
      Control(stateMachine.Value(), gamepad.Value(), robotInterface.Value())
    }

    constructor (params: Params, enc: FloatBits)
      ensures Valid() && fresh(ctrl) && fresh(stateMachine) && fresh(gamepad) && fresh(robotInterface) && this.params == params
      ensures stateMachine.Value() == Machine(Mode.Stand, PD_INIT)
      ensures gamepad.Value() == Pad(RELEASED, RELEASED, RELEASED, RELEASED, RELEASED)
      ensures cmd[..] == Default()
    {
      this.params := params;
      ctrl := new UserController();
      stateMachine := new SimpleStateMachine();
      gamepad := new Gamepad();
      robotInterface := new RobotInterface(enc);
      cmd := new Word[WORDS](_ => Zeros());
      new;
      assert cmd[..] == Default();
    }

    /** Samples the gamepad until R2 goes down, then commands damping; `samples` is what the wait loop reads. */
    method StartControl(samples: seq<Keys>) returns (started: bool)
      requires stateMachine.Value() == Machine(Mode.Stand, PD_INIT) && !gamepad.r2.pressed
      modifies gamepad
      modifies robotInterface`jposDes, robotInterface`jvelDes, robotInterface`kp, robotInterface`kd, robotInterface`tauFf
      ensures started <==> exists k :: 0 <= k < |samples| && samples[k].r2
      ensures started ==> gamepad.r2.onPress && Value() == Start(params, gamepad.Value())
      ensures started ==> stateMachine.Value() == Machine(Mode.Stand, 0.1) &&
                          robotInterface.Value() == Settings(params.initPos, Fill(0.0), Fill(0.0), Fill(2.0), Fill(0.0))
    {
      started := false;
      for i := 0 to |samples|
        modifies gamepad
        invariant !started && !gamepad.r2.pressed
        invariant forall k :: 0 <= k < i ==> !samples[k].r2
      {
        gamepad.Update(samples[i]);
        if gamepad.r2.onPress {
          started := true;
          break;
        }
      }
      if started {
        Damping(2.0);
      }
    }

    method Damping(kd: real)
      modifies robotInterface`jposDes, robotInterface`jvelDes, robotInterface`kp, robotInterface`kd, robotInterface`tauFf
      ensures robotInterface.Value() == Settings(params.initPos, Fill(0.0), Fill(0.0), Fill(kd), Fill(0.0))
    {
      robotInterface.jposDes := params.initPos;
      robotInterface.jvelDes := Fill(0.0);
      robotInterface.kp := Fill(0.0);
      robotInterface.kd := Fill(kd);
      robotInterface.tauFf := Fill(0.0);
    }

    method StandCallback()
      modifies robotInterface`jposDes, robotInterface`jvelDes, robotInterface`kp, robotInterface`kd, robotInterface`tauFf
      ensures robotInterface.Value() == StandEntry(params, stateMachine.pdRatio)
    {
      robotInterface.jposDes := params.initPos;
      robotInterface.jvelDes := Fill(0.0);
      robotInterface.kp := Fill(Scaled(params.kp, stateMachine.pdRatio));
      robotInterface.kd := Fill(Scaled(params.kd, stateMachine.pdRatio));
      robotInterface.tauFf := Fill(0.0);
    }

    /** Resets the user controller, which reads the sensors, and takes the settings of CTRL. */
    method CtrlCallback()
      modifies ctrl, robotInterface`jposDes, robotInterface`jvelDes, robotInterface`kp, robotInterface`kd, robotInterface`tauFf
      ensures robotInterface.Value() == CtrlEntry(params) && ctrl.input == robotInterface.Sensors()
    {
      ctrl.GetInput(robotInterface);
      robotInterface.jposDes := params.initPos;
      robotInterface.jvelDes := Fill(0.0);
      robotInterface.kp := Fill(params.kp);
      robotInterface.kd := Fill(params.kd);
      robotInterface.tauFf := Fill(0.0);
    }

    method UpdateStateMachine()
      modifies ctrl, stateMachine
      modifies robotInterface`jposDes, robotInterface`jvelDes, robotInterface`kp, robotInterface`kd, robotInterface`tauFf
      ensures Value() == Updated(params, old(Value()))
      ensures ctrl.input == if EntersCtrl(params, old(Value())) then robotInterface.Sensors() else old(ctrl.input)
    {
      if gamepad.r2.onPress {
        var ok := stateMachine.Stand();
        if ok {
          StandCallback();
        }
      }
      assert Value() == AfterR2(params, old(Value()));
      if gamepad.a.onPress {
        var ok := stateMachine.Ctrl();
        if ok {
          CtrlCallback();
        }
      }
      assert Value() == AfterA(params, AfterR2(params, old(Value())));
      if gamepad.l2.pressed && gamepad.b.pressed {
        var _ := stateMachine.Stop();
      }
    }

    /** The user controller takes the sensors; `userJpos` is what it calculates, used only when `send` is set. */
    method UserControlStep(userJpos: Joints, send: bool)
      modifies ctrl, robotInterface`jposDes
      ensures ctrl.input == robotInterface.Sensors()
      ensures robotInterface.Value() == if send then old(robotInterface.Value()).(jposDes := userJpos) else old(robotInterface.Value())
    {
      ctrl.GetInput(robotInterface);
      if send {
        robotInterface.jposDes := userJpos;
      }
    }

    method Standing(userJpos: Joints, kp: real, kd: real)
      modifies ctrl, stateMachine, robotInterface`jposDes, robotInterface`kp, robotInterface`kd
      ensures ctrl.input == robotInterface.Sensors()
      ensures stateMachine.Value() == RampedMachine(old(Value()))
      ensures robotInterface.Value() == old(robotInterface.Value()).(kp := Fill(Scaled(kp, stateMachine.pdRatio)), kd := Fill(Scaled(kd, stateMachine.pdRatio)))
    {
      if gamepad.r2.pressed {
        stateMachine.Standing(true);
      }
      if gamepad.r1.pressed {
        stateMachine.Standing(false);
      }
      UserControlStep(userJpos, false);
      robotInterface.kp := Fill(Scaled(kp, stateMachine.pdRatio));
      robotInterface.kd := Fill(Scaled(kd, stateMachine.pdRatio));
    }

    method CheckTermination() returns (fallen: bool)
      ensures fallen == Gravity.Fallen(robotInterface.projectedGravity)
    {
      if robotInterface.projectedGravity.z > 0.0 {
        return true;
      }
      return false;
    }

    /** The three mode tests in the middle of `ControlStep`. */
    method DispatchMode(userJpos: Joints, ghost keys: Keys)
      modifies ctrl, stateMachine
      modifies robotInterface`jposDes, robotInterface`jvelDes, robotInterface`kp, robotInterface`kd, robotInterface`tauFf
      ensures Value() == Dispatch(params, old(Value()), Input(keys, userJpos, Gravity.Fallen(robotInterface.projectedGravity)))
      ensures ctrl.input == if old(Value()).machine.mode != Mode.Damping then robotInterface.Sensors() else old(ctrl.input)
    {
      if stateMachine.state == Mode.Stand {
        Standing(userJpos, 40.0, 1.0);
      }
      if stateMachine.state == Mode.Damping {
        Damping(2.0);
      }
      if stateMachine.state == Mode.Ctrl {
        UserControlStep(userJpos, true);
        var fallen := CheckTermination();
        if fallen {
          var _ := stateMachine.Stop();
        }
      }
    }

    /** One period of the control thread. */
    method ControlStep(keys: Keys, userJpos: Joints)
      requires Valid()
      modifies ctrl, stateMachine, gamepad, cmd, robotInterface.lowCmd
      modifies robotInterface`jposDes, robotInterface`jvelDes, robotInterface`kp, robotInterface`kd, robotInterface`tauFf
      ensures Valid()
      ensures Value() == Step(params, old(Value()), Input(keys, userJpos, Gravity.Fallen(robotInterface.projectedGravity)))
      ensures var sampled := old(Value()).(pad := old(Value()).pad.Updated(keys));
              ctrl.input == if EntersCtrl(params, sampled) || Updated(params, sampled).machine.mode != Mode.Damping
                            then robotInterface.Sensors() else old(ctrl.input)
      ensures cmd[..] == Command(robotInterface.enc, Value().target)
      ensures Crc32.Crc(cmd[..]) == Zeros()
    {
      gamepad.Update(keys);
      UpdateStateMachine();
      DispatchMode(userJpos, keys);
      robotInterface.SetCommand(cmd);
    }
  }
}
