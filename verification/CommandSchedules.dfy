/** Interleavings of the controller's threads that happen: how a control step is carried out, how the ramp leads from the
    start to the edge of CTRL, and from there the failures that the theorems of `CommandThreads` allow. */
module CommandSchedules {
  import opened Words
  import opened LowCommand
  import opened ControlSpec
  import opened Mixing
  import opened CommandThreads
  import Crc32

  // ---------------------------------------------------------------- putting actions together

  function Times(n: nat, a: Action): seq<Action> {
    seq(n, _ => a)
  }

  lemma RunPush(p: Params, enc: FloatBits, w: World, actions: seq<Action>, a: Action)
    ensures Run(p, enc, w, actions + [a]) == Act(p, enc, Run(p, enc, w, actions), a)
  {
    assert (actions + [a])[..|actions|] == actions;
  }

  lemma {:induction false} RunAppend(p: Params, enc: FloatBits, w: World, a: seq<Action>, b: seq<Action>)
    ensures Run(p, enc, w, a + b) == Run(p, enc, Run(p, enc, w, a), b)
  {
    if b == [] {
      assert a + b == a;
    } else {
      RunAppend(p, enc, w, a, b[..|b| - 1]);
      assert (a + b)[..|a + b| - 1] == a + b[..|b| - 1];
    }
  }

  // ---------------------------------------------------------------- the default command

  lemma {:induction false} FetchMany(p: Params, enc: FloatBits, w: World, n: nat)
    requires n <= WORDS == |w.cmd| && w.writer == Fetching(w.log.copied, [])
    ensures Run(p, enc, w, Times(n, ByWriter(WriterFetch))) == w.(writer := Fetching(w.log.copied, w.cmd[..n]))
  {
    if n > 0 {
      FetchMany(p, enc, w, n - 1);
      assert Times(n, ByWriter(WriterFetch)) == Times(n - 1, ByWriter(WriterFetch)) + [ByWriter(WriterFetch)];
      RunPush(p, enc, w, Times(n - 1, ByWriter(WriterFetch)), ByWriter(WriterFetch));
      PrefixStep(w.cmd, n - 1);
    }
  }

  /** The default command does get published, when the writer runs before the first control step is complete. */
  lemma DefaultPublished(p: Params, enc: FloatBits, start: Control, sensors: Sensed) returns (actions: seq<Action>)
    ensures Run(p, enc, Init(start, sensors), actions).log.published == [Publication(0, Default())]
    ensures Crc32.Crc(Default()) != Zeros()
  {
    DefaultResidue();
    var w := Init(start, sensors);
    var locked := w.(writer := Fetching(0, []), cmdOwner := WriterThread);
    var fetches := Times(WORDS, ByWriter(WriterFetch));
    actions := [ByWriter(WriterLock)] + fetches + [ByWriter(WriterPublish)];
    RunPush(p, enc, w, [], ByWriter(WriterLock));
    assert [] + [ByWriter(WriterLock)] == [ByWriter(WriterLock)];
    RunAppend(p, enc, w, [ByWriter(WriterLock)], fetches);
    FetchMany(p, enc, locked, WORDS);
    assert w.cmd[..WORDS] == Default();
    RunPush(p, enc, w, [ByWriter(WriterLock)] + fetches, ByWriter(WriterPublish));
  }

  // ---------------------------------------------------------------- one control step

  /** Nothing has reached the callback yet, the control thread is between two steps and both mutexes are free. */
  ghost predicate Quiet(w: World, sensors: Sensed) {
    && w.pc == Idle && w.cmdOwner == Nobody && |w.cmd| == WORDS
    && w.stateOwner == Nobody && w.callback == Waiting && w.sensors == sensors && w.origins == seq(SENSED, _ => 0)
    && w.log.messages == [sensors] && w.log.stores == 0 && w.log.resets == [] && w.log.checks == []
  }

  lemma {:induction false} CopyMany(p: Params, enc: FloatBits, w: World, n: nat)
    requires n <= WORDS == |w.cmd| && w.pc == Copying(0)
    ensures var v := Run(p, enc, w, Times(n, ByControl(CopyWord)));
            v == w.(pc := Copying(n), cmd := v.cmd) && |v.cmd| == WORDS
  {
    if n > 0 {
      CopyMany(p, enc, w, n - 1);
      assert Times(n, ByControl(CopyWord)) == Times(n - 1, ByControl(CopyWord)) + [ByControl(CopyWord)];
      RunPush(p, enc, w, Times(n - 1, ByControl(CopyWord)), ByControl(CopyWord));
      ActCopy(p, enc, Run(p, enc, w, Times(n - 1, ByControl(CopyWord))));
    }
  }

  lemma ActCopy(p: Params, enc: FloatBits, w: World)
    requires w.pc.Copying? && w.pc.done < WORDS == |w.cmd|
    ensures var v := Act(p, enc, w, ByControl(CopyWord));
            v == w.(pc := Copying(w.pc.done + 1), cmd := v.cmd) && |v.cmd| == WORDS
  {
  }

  lemma ActSample(p: Params, enc: FloatBits, w: World, keys: Keys)
    requires w.pc == Idle
    ensures Act(p, enc, w, ByControl(SampleGamepad(keys))) ==
            w.(pc := if EntersCtrl(p, w.control.(pad := w.control.pad.Updated(keys))) then Resetting(keys, []) else Sampled(keys),
               log := w.log.(samples := w.log.samples + [keys]))
  {
  }

  lemma ActLockState(p: Params, enc: FloatBits, w: World)
    requires w.pc.Sampled? && w.stateOwner == Nobody && ModeOf(p, w.control, w.pc.keys) != Damping
    ensures Act(p, enc, w, ByControl(LockState)) ==
            w.(pc := Reading(w.pc.keys, Read(|w.log.messages|, [])), stateOwner := ControlThread)
  {
  }

  lemma ActUnlockState(p: Params, enc: FloatBits, w: World)
    requires w.pc.Reading? && w.pc.read.after > 0
    ensures Act(p, enc, w, ByControl(UnlockState)) ==
            w.(pc := Calculating(w.pc.keys, w.pc.read.after - 1), stateOwner := Nobody, log := w.log.(taken := w.log.taken + [w.pc.read]))
  {
  }

  lemma ActDecideStand(p: Params, enc: FloatBits, w: World, userJpos: Joints)
    requires w.pc.Calculating? && Readable(w, GRAVITY_Z) && ModeOf(p, w.control, w.pc.keys) != Ctrl
    ensures Act(p, enc, w, ByControl(Decide(userJpos))) == Decision(p, w, Input(w.pc.keys, userJpos, false), userJpos)
  {
  }

  lemma ActLockCommand(p: Params, enc: FloatBits, w: World)
    requires w.pc == Decided && w.cmdOwner == Nobody
    ensures Act(p, enc, w, ByControl(LockCommand)) == w.(pc := Copying(0), cmdOwner := ControlThread)
  {
  }

  lemma ActUnlockCommand(p: Params, enc: FloatBits, w: World)
    requires w.pc == Copying(WORDS)
    ensures Act(p, enc, w, ByControl(UnlockCommand)) ==
            w.(pc := Idle, cmdOwner := Nobody, log := w.log.(copied := w.log.copied + 1))
  {
  }

  /** From the sampled gamepad to the release of the state mutex, reading nothing. */
  lemma Sensing(p: Params, enc: FloatBits, w: World, before: seq<Action>) returns (actions: seq<Action>)
    requires var v := Run(p, enc, w, before);
             v.pc.Sampled? && v.stateOwner == Nobody && |v.log.messages| > 0 && ModeOf(p, v.control, v.pc.keys) != Damping
    ensures var v, n := Run(p, enc, w, before), |Run(p, enc, w, before).log.messages|;
            Run(p, enc, w, actions) ==
            v.(pc := Calculating(v.pc.keys, n - 1), log := v.log.(taken := v.log.taken + [Read(n, [])]))
  {
    var v := Run(p, enc, w, before);
    RunPush(p, enc, w, before, ByControl(LockState));
    ActLockState(p, enc, v);
    actions := before + [ByControl(LockState)];
    RunPush(p, enc, w, actions, ByControl(UnlockState));
    ActUnlockState(p, enc, Run(p, enc, w, actions));
    actions := actions + [ByControl(UnlockState)];
  }

  /** From a decided step to the release of the command mutex. */
  lemma CopyingOut(p: Params, enc: FloatBits, w: World, before: seq<Action>) returns (actions: seq<Action>)
    requires var v := Run(p, enc, w, before); v.pc == Decided && v.cmdOwner == Nobody && |v.cmd| == WORDS
    ensures var v, u := Run(p, enc, w, before), Run(p, enc, w, actions);
            u == v.(pc := Idle, cmd := u.cmd, log := v.log.(copied := v.log.copied + 1)) && |u.cmd| == WORDS
  {
    var v := Run(p, enc, w, before);
    RunPush(p, enc, w, before, ByControl(LockCommand));
    ActLockCommand(p, enc, v);
    actions := before + [ByControl(LockCommand)];
    var copies := Times(WORDS, ByControl(CopyWord));
    RunAppend(p, enc, w, actions, copies);
    CopyMany(p, enc, Run(p, enc, w, actions), WORDS);
    actions := actions + copies;
    RunPush(p, enc, w, actions, ByControl(UnlockCommand));
    ActUnlockCommand(p, enc, Run(p, enc, w, actions));
    actions := actions + [ByControl(UnlockCommand)];
  }

  /** A complete step in STAND: 209 actions of the control thread, after which everything is quiet again. */
  lemma StandStep(p: Params, enc: FloatBits, w: World, before: seq<Action>, sensors: Sensed, keys: Keys) returns (actions: seq<Action>)
    requires Quiet(Run(p, enc, w, before), sensors)
    requires var c := Run(p, enc, w, before).control;
             ModeOf(p, c, keys) == Mode.Stand && !EntersCtrl(p, c.(pad := c.pad.Updated(keys)))
    ensures Quiet(Run(p, enc, w, actions), sensors)
    ensures Run(p, enc, w, actions).control == Step(p, Run(p, enc, w, before).control, Input(keys, Fill(0.0), false))
  {
    RunPush(p, enc, w, before, ByControl(SampleGamepad(keys)));
    ActSample(p, enc, Run(p, enc, w, before), keys);
    actions := before + [ByControl(SampleGamepad(keys))];
    actions := Sensing(p, enc, w, actions);
    RunPush(p, enc, w, actions, ByControl(Decide(Fill(0.0))));
    ActDecideStand(p, enc, Run(p, enc, w, actions), Fill(0.0));
    actions := actions + [ByControl(Decide(Fill(0.0)))];
    actions := CopyingOut(p, enc, w, actions);
  }

  // ---------------------------------------------------------------- from the start to the edge of CTRL

  /** The gamepad sample that holds R2 alone. */
  const HOLD_R2: Keys := Keys(false, true, false, false, false)

  lemma HeldStep(p: Params, c: Control)
    requires c.machine.mode == Mode.Stand && 0.0 <= c.machine.pd <= 1.0 - DELTA_PD
    ensures ModeOf(p, c, HOLD_R2) == Mode.Stand && !EntersCtrl(p, c.(pad := c.pad.Updated(HOLD_R2)))
    ensures var d := Step(p, c, Input(HOLD_R2, Fill(0.0), false));
            d.machine == Machine(Mode.Stand, c.machine.pd + DELTA_PD) && !d.pad.a.pressed
  {
  }

  /** `n` steps with R2 held, from the start of the controller. */
  lemma {:induction false} Ramp(p: Params, enc: FloatBits, pad: Pad, sensors: Sensed, n: nat) returns (actions: seq<Action>)
    requires n <= 180
    ensures var w := Run(p, enc, Init(Start(p, pad), sensors), actions);
            && Quiet(w, sensors) && w.control.machine == Machine(Mode.Stand, PD_INIT + DELTA_PD * n as real)
            && (n > 0 ==> !w.control.pad.a.pressed)
  {
    if n == 0 {
      actions := [];
    } else {
      var w := Init(Start(p, pad), sensors);
      var before := Ramp(p, enc, pad, sensors, n - 1);
      HeldStep(p, Run(p, enc, w, before).control);
      actions := StandStep(p, enc, w, before, sensors, HOLD_R2);
    }
  }

  /** 171 such steps lead to where pressing A enters CTRL. */
  lemma EdgeOfCtrl(p: Params, enc: FloatBits, pad: Pad, sensors: Sensed) returns (actions: seq<Action>)
    ensures var w := Run(p, enc, Init(Start(p, pad), sensors), actions);
            Quiet(w, sensors) && w.control.machine.CanCtrl() && !w.control.pad.a.pressed
  {
    actions := Ramp(p, enc, pad, sensors, 171);
  }

  // ---------------------------------------------------------------- the callback stores meanwhile

  lemma {:induction false} StoreMany(p: Params, enc: FloatBits, w: World, n: nat)
    requires n <= SENSED == |w.sensors| == |w.origins| && w.callback.Storing? && w.callback.done == 0
    ensures var v := Run(p, enc, w, Times(n, ByCallback(CallbackStore)));
            && v == w.(callback := Storing(w.callback.message, n), sensors := v.sensors, origins := v.origins,
                       log := w.log.(stores := w.log.stores + n))
            && v.sensors == Mixed(w.callback.message, w.sensors, n)
            && v.origins == Mixed(seq(SENSED, _ => |w.log.messages|), w.origins, n)
  {
    MixedEnds(w.callback.message, w.sensors);
    MixedEnds(seq(SENSED, _ => |w.log.messages|), w.origins);
    if n > 0 {
      StoreMany(p, enc, w, n - 1);
      assert Times(n, ByCallback(CallbackStore)) == Times(n - 1, ByCallback(CallbackStore)) + [ByCallback(CallbackStore)];
      RunPush(p, enc, w, Times(n - 1, ByCallback(CallbackStore)), ByCallback(CallbackStore));
      ActStore(p, enc, Run(p, enc, w, Times(n - 1, ByCallback(CallbackStore))));
      MixedStep(w.callback.message, w.sensors, n - 1);
      MixedStep(seq(SENSED, _ => |w.log.messages|), w.origins, n - 1);
    }
  }

  lemma ActStore(p: Params, enc: FloatBits, w: World)
    requires w.callback.Storing? && Readable(w, w.callback.done)
    ensures Act(p, enc, w, ByCallback(CallbackStore)) ==
            w.(callback := Storing(w.callback.message, w.callback.done + 1),
               sensors := w.sensors[w.callback.done := w.callback.message[w.callback.done]],
               origins := w.origins[w.callback.done := |w.log.messages|], log := w.log.(stores := w.log.stores + 1))
  {
  }

  lemma ActCallbackLock(p: Params, enc: FloatBits, w: World, message: Sensed)
    requires w.callback == Waiting && w.stateOwner == Nobody
    ensures Act(p, enc, w, ByCallback(CallbackLock(message))) == w.(callback := Storing(message, 0), stateOwner := StateCallback)
  {
  }

  /** The first message arrives, and its first `n` words are stored. */
  lemma FirstMessage(p: Params, enc: FloatBits, w: World, before: seq<Action>, sensors: Sensed, message: Sensed, n: nat)
    returns (actions: seq<Action>)
    requires n <= SENSED
    requires var v := Run(p, enc, w, before);
             && v.callback == Waiting && v.stateOwner == Nobody && v.sensors == sensors && v.origins == seq(SENSED, _ => 0)
             && v.log.messages == [sensors] && v.log.stores == 0
    ensures var v, u := Run(p, enc, w, before), Run(p, enc, w, actions);
            && u.pc == v.pc && u.control == v.control && u.log == v.log.(stores := n) && |u.sensors| == |u.origins| == SENSED
            && (forall k :: 0 <= k < SENSED ==> u.sensors[k] == if k < n then message[k] else sensors[k])
            && (forall k :: 0 <= k < SENSED ==> u.origins[k] == if k < n then 1 else 0)
  {
    var v := Run(p, enc, w, before);
    RunPush(p, enc, w, before, ByCallback(CallbackLock(message)));
    ActCallbackLock(p, enc, v, message);
    actions := before + [ByCallback(CallbackLock(message))];
    var stores := Times(n, ByCallback(CallbackStore));
    RunAppend(p, enc, w, actions, stores);
    StoreMany(p, enc, Run(p, enc, w, actions), n);
    actions := actions + stores;
  }

  // ---------------------------------------------------------------- torn resets

  /** The gamepad sample that presses A alone. */
  const PRESS_A: Keys := Keys(false, false, false, true, false)

  lemma PressAEnters(p: Params, c: Control)
    requires c.machine.CanCtrl() && !c.pad.a.pressed
    ensures EntersCtrl(p, c.(pad := c.pad.Updated(PRESS_A))) && ModeOf(p, c, PRESS_A) == Ctrl
  {
  }

  lemma ActResetRead(p: Params, enc: FloatBits, w: World, i: nat)
    requires w.pc.Resetting? && Readable(w, i)
    ensures Act(p, enc, w, ByControl(ResetRead(i))) == w.(pc := Resetting(w.pc.keys, w.pc.got + [Look(w, i)]))
  {
  }

  lemma ActResetDone(p: Params, enc: FloatBits, w: World)
    requires w.pc.Resetting?
    ensures Act(p, enc, w, ByControl(ResetDone)) == w.(pc := Sampled(w.pc.keys), log := w.log.(resets := w.log.resets + [w.pc.got]))
  {
  }

  /** The controller has been started, ramped up and is entering CTRL. */
  lemma Entering(p: Params, enc: FloatBits, pad: Pad, sensors: Sensed) returns (actions: seq<Action>, quiet: World)
    ensures Quiet(quiet, sensors) && ModeOf(p, quiet.control, PRESS_A) == Ctrl
    ensures Run(p, enc, Init(Start(p, pad), sensors), actions) == quiet.(pc := Resetting(PRESS_A, []))
  {
    var w := Init(Start(p, pad), sensors);
    actions := EdgeOfCtrl(p, enc, pad, sensors);
    var edge := Run(p, enc, w, actions);
    quiet := edge.(log := edge.log.(samples := edge.log.samples + [PRESS_A]));
    PressAEnters(p, edge.control);
    RunPush(p, enc, w, actions, ByControl(SampleGamepad(PRESS_A)));
    ActSample(p, enc, edge, PRESS_A);
    actions := actions + [ByControl(SampleGamepad(PRESS_A))];
  }

  /** A reset from the start of the controller: word `i` is read, then the callback stores `n` words of the first message,
      then word `j` is read. */
  lemma ResetAcross(p: Params, enc: FloatBits, pad: Pad, sensors: Sensed, message: Sensed, i: nat, n: nat, j: nat)
    returns (actions: seq<Action>)
    requires i < SENSED && j < SENSED && n <= SENSED
    ensures Run(p, enc, Init(Start(p, pad), sensors), actions).log.resets ==
            [[Got(i, sensors[i], 0, 0), Got(j, if j < n then message[j] else sensors[j], if j < n then 1 else 0, n)]]
  {
    var w := Init(Start(p, pad), sensors);
    var quiet;
    actions, quiet := Entering(p, enc, pad, sensors);
    var first := Got(i, sensors[i], 0, 0);
    RunPush(p, enc, w, actions, ByControl(ResetRead(i)));
    ActResetRead(p, enc, quiet.(pc := Resetting(PRESS_A, [])), i);
    assert [] + [first] == [first];
    actions := actions + [ByControl(ResetRead(i))];
    assert Run(p, enc, w, actions) == quiet.(pc := Resetting(PRESS_A, [first]));
    actions := FirstMessage(p, enc, w, actions, sensors, message, n);
    actions := ResetEnds(p, enc, w, actions, j);
    assert [first] + [Got(j, if j < n then message[j] else sensors[j], if j < n then 1 else 0, n)]
        == [first, Got(j, if j < n then message[j] else sensors[j], if j < n then 1 else 0, n)];
  }

  /** Reading word `j` and finishing. */
  lemma ResetEnds(p: Params, enc: FloatBits, w0: World, before: seq<Action>, j: nat) returns (actions: seq<Action>)
    requires Run(p, enc, w0, before).pc.Resetting? && Readable(Run(p, enc, w0, before), j)
    ensures var w := Run(p, enc, w0, before);
            Run(p, enc, w0, actions).log.resets == w.log.resets + [w.pc.got + [Look(w, j)]]
  {
    var w := Run(p, enc, w0, before);
    actions := before + [ByControl(ResetRead(j))];
    RunPush(p, enc, w0, before, ByControl(ResetRead(j)));
    ActResetRead(p, enc, w, j);
    RunPush(p, enc, w0, actions, ByControl(ResetDone));
    ActResetDone(p, enc, Run(p, enc, w0, actions));
    actions := actions + [ByControl(ResetDone)];
  }

  /** A torn read happens: for any two words there is an interleaving, from the start of the controller, in which a reset
      gets the first from the initial values and the second from the first message. */
  lemma ResetTorn(p: Params, enc: FloatBits, pad: Pad, sensors: Sensed, message: Sensed, i: nat, j: nat)
    returns (actions: seq<Action>)
    requires i < SENSED && j < SENSED
    ensures var got := [Got(i, sensors[i], 0, 0), Got(j, message[j], 1, j + 1)];
            Run(p, enc, Init(Start(p, pad), sensors), actions).log.resets == [got] && !FromOneMessage(got)
  {
    actions := ResetAcross(p, enc, pad, sensors, message, i, j + 1, j);
    var got := [Got(i, sensors[i], 0, 0), Got(j, message[j], 1, j + 1)];
    assert got[1].origin != got[0].origin;
  }

  /** Storing meanwhile does not always tear: the callback can store word `i` after it was read, and a later word is
      still of the same message as long as the callback has not reached it. */
  lemma ResetOvertaken(p: Params, enc: FloatBits, pad: Pad, sensors: Sensed, message: Sensed, i: nat, j: nat)
    returns (actions: seq<Action>)
    requires i < j < SENSED
    ensures var got := [Got(i, sensors[i], 0, 0), Got(j, sensors[j], 0, j)];
            Run(p, enc, Init(Start(p, pad), sensors), actions).log.resets == [got] && FromOneMessage(got)
  {
    actions := ResetAcross(p, enc, pad, sensors, message, i, j, j);
  }

  // ---------------------------------------------------------------- the fall check

  lemma ActDecideCtrl(p: Params, enc: FloatBits, w: World, userJpos: Joints)
    requires w.pc.Calculating? && Readable(w, GRAVITY_Z) && ModeOf(p, w.control, w.pc.keys) == Ctrl
    ensures var log := Act(p, enc, w, ByControl(Decide(userJpos))).log;
            && log.checks == w.log.checks + [Check(|w.log.inputs|, w.pc.given, w.origins[GRAVITY_Z], w.log.stores)]
            && log.inputs == w.log.inputs + [Input(w.pc.keys, userJpos, w.sensors[GRAVITY_Z] > 0.0)]
  {
  }

  /** From the start of the controller: in the first step in CTRL the user controller is given the initial values, and the
      callback then stores `n` words of the first message before the fall check reads the gravity word. */
  lemma CheckAcross(p: Params, enc: FloatBits, pad: Pad, sensors: Sensed, message: Sensed, userJpos: Joints, n: nat)
    returns (actions: seq<Action>)
    requires n <= SENSED
    ensures var log := Run(p, enc, Init(Start(p, pad), sensors), actions).log;
            && |log.inputs| > 0 && log.checks == [Check(|log.inputs| - 1, 0, if GRAVITY_Z < n then 1 else 0, n)]
            && (log.inputs[|log.inputs| - 1].fallen <==> (if GRAVITY_Z < n then message else sensors)[GRAVITY_Z] > 0.0)
  {
    var w := Init(Start(p, pad), sensors);
    var quiet;
    actions, quiet := Entering(p, enc, pad, sensors);
    RunPush(p, enc, w, actions, ByControl(ResetDone));
    ActResetDone(p, enc, quiet.(pc := Resetting(PRESS_A, [])));
    actions := actions + [ByControl(ResetDone)];
    actions := Sensing(p, enc, w, actions);
    actions := FirstMessage(p, enc, w, actions, sensors, message, n);
    RunPush(p, enc, w, actions, ByControl(Decide(userJpos)));
    ActDecideCtrl(p, enc, Run(p, enc, w, actions), userJpos);
    actions := actions + [ByControl(Decide(userJpos))];
  }

  /** The fall check does see a newer message than the user controller was given, even one that is still being stored. */
  lemma FallCheckNewer(p: Params, enc: FloatBits, pad: Pad, sensors: Sensed, message: Sensed, userJpos: Joints)
    returns (actions: seq<Action>)
    ensures var log := Run(p, enc, Init(Start(p, pad), sensors), actions).log;
            && |log.inputs| > 0 && log.checks == [Check(|log.inputs| - 1, 0, 1, GRAVITY_Z + 1)]
            && (log.inputs[|log.inputs| - 1].fallen <==> message[GRAVITY_Z] > 0.0)
  {
    actions := CheckAcross(p, enc, pad, sensors, message, userJpos, GRAVITY_Z + 1);
  }
}
