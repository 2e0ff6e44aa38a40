/** The control thread, the writer thread and the state callback, interleaved word by word.

    An action is one memory access or one mutex operation of one thread, with the computation that needs no shared
    data; every interleaving is a sequence of actions, and an action whose thread is elsewhere or whose mutex is taken
    changes nothing (the thread waits).
 */
module CommandThreads {
  import opened Words
  import opened LowCommand
  import opened ControlSpec
  import opened ControlRuns
  import opened Mixing
  import Crc32

  /** The words of the interface that `GetState` fills, in the order in which it does: quat 4, rpy 3, gyro 3, gravity 3,
      then motor by motor its position, velocity and torque (joint i's position is word 13 + 3 * i). */
  const SENSED: nat := 49
  const GRAVITY_Z: nat := 12

  type Sensed = s: seq<real> | |s| == SENSED witness seq(SENSED, _ => 0.0)

  /** Who holds a mutex. */
  datatype Owner = Nobody | ControlThread | WriterThread | StateCallback

  /** A sensor word that the user controller read. History: `origin` numbers the message that had written the word (zero
      for the initial values), `stores` counts the words that the callback had written by then. */
  datatype Got = Got(index: nat, value: real, origin: nat, stores: nat)

  /** What was read under one hold of the state mutex, and how many messages (and initial values) were complete then. */
  datatype Read = Read(after: nat, got: seq<Got>)

  /** A fall check: its control step, the message given to the user controller in that step, the message whose gravity
      word was seen, and how many words the callback had written by then. */
  datatype Check = Check(step: nat, given: nat, seen: nat, stores: nat)

  datatype ControlPc =
    | Idle
    | Resetting(keys: Keys, got: seq<Got>)         // entering CTRL: the user controller reads without the mutex
    | Sampled(keys: Keys)                          // state machine updated, before the state mutex
    | Reading(keys: Keys, read: Read)              // state mutex held, the user controller reads
    | Calculating(keys: Keys, given: nat)          // state mutex released, before the fall check
    | Decided                                      // settings written, before the command mutex
    | Copying(done: nat)                           // command mutex held, first `done` words copied

  /** `after` counts the completed `SetCommand` calls when the writer took the mutex. */
  datatype WriterPc = Resting | Fetching(after: nat, words: seq<Word>)

  datatype CallbackPc = Waiting | Storing(message: Sensed, done: nat)

  datatype World = World(
    control: Control, pc: ControlPc,
    cmd: seq<Word>, cmdOwner: Owner,
    writer: WriterPc,
    sensors: seq<real>, origins: seq<nat>, stateOwner: Owner, callback: CallbackPc,
    log: Log)

  /** What has happened so far; nothing in the code reads it. */
  datatype Log = Log(
    states: seq<Control>, inputs: seq<Input>,      // the controller's run, one input per control step
    copied: nat,                                   // control steps whose command has been copied out completely
    published: seq<Publication>,
    messages: seq<Sensed>,                         // the sensor values at the start, then one entry per stored message
    stores: nat,                                   // words written by the callback
    taken: seq<Read>,                              // what the user controller read under the mutex
    resets: seq<seq<Got>>,                         // what it read on entering CTRL
    checks: seq<Check>,
    samples: seq<Keys>,                            // what each control step read from the gamepad
    wanted: seq<Joints>)                           // what the user controller calculated in each decided step

  /** A published command, with the number of completed `SetCommand` calls when the writer took the mutex. */
  datatype Publication = Publication(after: nat, words: seq<Word>)

  datatype Action = ByControl(c: ControlAction) | ByWriter(w: WriterAction) | ByCallback(k: CallbackAction)

  /** The user controller may read any words in any order, and any number of them. */
  datatype ControlAction =
    | SampleGamepad(keys: Keys)
    | ResetRead(index: nat)
    | ResetDone
    | LockState
    | ReadSensor(index: nat)
    | UnlockState
    | Decide(userJpos: Joints)
    | DecideDamping
    | LockCommand
    | CopyWord
    | UnlockCommand

  datatype WriterAction = WriterLock | WriterFetch | WriterPublish

  datatype CallbackAction = CallbackLock(message: Sensed) | CallbackStore | CallbackUnlock

  function Init(start: Control, sensors: Sensed): World {
    World(start, Idle, Default(), Nobody, Resting, sensors, seq(SENSED, _ => 0), Nobody, Waiting,
          Log([start], [], 0, [], [sensors], 0, [], [], [], [], []))
  }

  /** The mode in which this step will be dispatched. */
  function ModeOf(p: Params, c: Control, keys: Keys): Mode {
    Updated(p, c.(pad := c.pad.Updated(keys))).machine.mode
  }

  function Look(w: World, index: nat): Got
    requires index < |w.sensors| && index < |w.origins|
  {
    Got(index, w.sensors[index], w.origins[index], w.log.stores)
  }

  predicate Readable(w: World, index: nat) {
    index < SENSED && |w.sensors| == SENSED && |w.origins| == SENSED
  }

  /** From the gamepad sample to the release of the state mutex. */
  function SenseAct(p: Params, w: World, a: ControlAction): World {
    match a
    case SampleGamepad(keys) =>
      if w.pc != Idle then w
      else
        w.(pc := if EntersCtrl(p, w.control.(pad := w.control.pad.Updated(keys))) then Resetting(keys, []) else Sampled(keys),
           log := w.log.(samples := w.log.samples + [keys]))
    case ResetRead(index) =>
      if w.pc.Resetting? && Readable(w, index) then w.(pc := w.pc.(got := w.pc.got + [Look(w, index)])) else w
    case ResetDone =>
      if w.pc.Resetting? then w.(pc := Sampled(w.pc.keys), log := w.log.(resets := w.log.resets + [w.pc.got])) else w
    case LockState =>
      if w.pc.Sampled? && w.stateOwner == Nobody && ModeOf(p, w.control, w.pc.keys) != Damping then
        w.(pc := Reading(w.pc.keys, Read(|w.log.messages|, [])), stateOwner := ControlThread) else w
    case ReadSensor(index) =>
      if w.pc.Reading? && Readable(w, index) then
        w.(pc := w.pc.(read := w.pc.read.(got := w.pc.read.got + [Look(w, index)]))) else w
    case UnlockState =>
      if w.pc.Reading? && w.pc.read.after > 0 then
        w.(pc := Calculating(w.pc.keys, w.pc.read.after - 1), stateOwner := Nobody,
           log := w.log.(taken := w.log.taken + [w.pc.read])) else w
    case _ => w
  }

  /** The rest of the computation of a step; the fall check of CTRL reads the gravity word without the mutex. */
  function DecideAct(p: Params, w: World, a: ControlAction): World {
    match a
    case Decide(userJpos) =>
      if !w.pc.Calculating? || !Readable(w, GRAVITY_Z) then w
      else if ModeOf(p, w.control, w.pc.keys) == Ctrl then
        Decision(p, Checked(w), Input(w.pc.keys, userJpos, w.sensors[GRAVITY_Z] > 0.0), userJpos)
      else Decision(p, w, Input(w.pc.keys, userJpos, false), userJpos)
    case DecideDamping =>
      if w.pc.Sampled? && ModeOf(p, w.control, w.pc.keys) == Damping then
        Decision(p, w, Input(w.pc.keys, Fill(0.0), false), Fill(0.0)) else w
    case _ => w
  }

  /** The fall check leaves its trace. */
  function Checked(w: World): World
    requires w.pc.Calculating? && Readable(w, GRAVITY_Z)
  {
    w.(log := w.log.(checks := w.log.checks + [Check(|w.log.inputs|, w.pc.given, w.origins[GRAVITY_Z], w.log.stores)]))
  }

  /** `SetCommand` under the command mutex. */
  function CopyAct(enc: FloatBits, w: World, a: ControlAction): World {
    match a
    case LockCommand =>
      if w.pc == Decided && w.cmdOwner == Nobody then w.(pc := Copying(0), cmdOwner := ControlThread) else w
    case CopyWord =>
      if w.pc.Copying? && w.pc.done < WORDS && |w.cmd| == WORDS then
        w.(pc := Copying(w.pc.done + 1), cmd := w.cmd[w.pc.done := Command(enc, w.control.target)[w.pc.done]]) else w
    case UnlockCommand =>
      if w.pc.Copying? && w.pc.done == WORDS then
        w.(pc := Idle, cmdOwner := Nobody, log := w.log.(copied := w.log.copied + 1)) else w
    case _ => w
  }

  function ControlAct(p: Params, enc: FloatBits, w: World, a: ControlAction): World {
    match a
    case Decide(_) => DecideAct(p, w, a)
    case DecideDamping => DecideAct(p, w, a)
    case LockCommand => CopyAct(enc, w, a)
    case CopyWord => CopyAct(enc, w, a)
    case UnlockCommand => CopyAct(enc, w, a)
    case _ => SenseAct(p, w, a)
  }

  function Decision(p: Params, w: World, input: Input, userJpos: Joints): World {
    var next := Step(p, w.control, input);
    w.(control := next, pc := Decided,
       log := w.log.(states := w.log.states + [next], inputs := w.log.inputs + [input], wanted := w.log.wanted + [userJpos]))
  }

  function WriterAct(w: World, a: WriterAction): World {
    match a
    case WriterLock =>
      if w.writer == Resting && w.cmdOwner == Nobody then
        w.(writer := Fetching(w.log.copied, []), cmdOwner := WriterThread) else w
    case WriterFetch =>
      if w.writer.Fetching? && |w.writer.words| < WORDS && |w.cmd| == WORDS then
        w.(writer := w.writer.(words := w.writer.words + [w.cmd[|w.writer.words|]])) else w
    case WriterPublish =>
      if w.writer.Fetching? && |w.writer.words| == WORDS then
        w.(writer := Resting, cmdOwner := Nobody,
           log := w.log.(published := w.log.published + [Publication(w.writer.after, w.writer.words)])) else w
  }

  function CallbackAct(w: World, a: CallbackAction): World {
    match a
    case CallbackLock(message) =>
      if w.callback == Waiting && w.stateOwner == Nobody then
        w.(callback := Storing(message, 0), stateOwner := StateCallback) else w
    case CallbackStore =>
      if w.callback.Storing? && Readable(w, w.callback.done) then
        w.(callback := Storing(w.callback.message, w.callback.done + 1),
           sensors := w.sensors[w.callback.done := w.callback.message[w.callback.done]],
           origins := w.origins[w.callback.done := |w.log.messages|],
           log := w.log.(stores := w.log.stores + 1)) else w
    case CallbackUnlock =>
      if w.callback.Storing? && w.callback.done == SENSED then
        w.(callback := Waiting, stateOwner := Nobody,
           log := w.log.(messages := w.log.messages + [w.callback.message])) else w
  }

  function Act(p: Params, enc: FloatBits, w: World, a: Action): World {
    match a
    case ByControl(c) => ControlAct(p, enc, w, c)
    case ByWriter(c) => WriterAct(w, c)
    case ByCallback(c) => CallbackAct(w, c)
  }

  function Run(p: Params, enc: FloatBits, w: World, actions: seq<Action>): World {
    if actions == [] then w else Act(p, enc, Run(p, enc, w, actions[..|actions| - 1]), actions[|actions| - 1])
  }

  // ---------------------------------------------------------------- the command

  /** The command in force after `k` completed `SetCommand` calls: the default, or what step `k` built. */
  ghost function Version(enc: FloatBits, log: Log, k: nat): seq<Word>
    requires k < |log.states|
  {
    if k == 0 then Default() else Command(enc, log.states[k].target)
  }

  ghost predicate ControlInv(p: Params, w: World) {
    && IsRun(p, w.log.states, w.log.inputs)
    && w.control == w.log.states[|w.log.inputs|]
    && |w.log.inputs| == w.log.copied + if w.pc.Decided? || w.pc.Copying? then 1 else 0
  }

  /** The shared command is whole except while the control thread holds the mutex, and then exactly
      its first `done` words are new. */
  ghost predicate CommandInv(enc: FloatBits, w: World)
    requires w.log.copied < |w.log.states|
  {
    var prior := Version(enc, w.log, w.log.copied);
    && |w.cmd| == WORDS
    && (w.pc.Copying? <==> w.cmdOwner == ControlThread)
    && (w.writer.Fetching? <==> w.cmdOwner == WriterThread)
    && (w.pc.Copying? ==> w.pc.done <= WORDS && w.cmd == Mixed(Command(enc, w.control.target), prior, w.pc.done))
    && (!w.pc.Copying? ==> w.cmd == prior)
    && (w.writer.Fetching? ==>
          w.writer.after == w.log.copied && |w.writer.words| <= WORDS && w.writer.words == prior[..|w.writer.words|])
  }

  ghost predicate PublishedInv(enc: FloatBits, w: World)
    requires w.log.copied < |w.log.states|
  {
    forall i :: 0 <= i < |w.log.published| ==>
      w.log.published[i].after <= w.log.copied &&
      w.log.published[i].words == Version(enc, w.log, w.log.published[i].after)
  }

  ghost predicate CommandSide(p: Params, enc: FloatBits, w: World) {
    ControlInv(p, w) && CommandInv(enc, w) && PublishedInv(enc, w)
  }

  /** A step of the computation is decided and its command not yet copied. */
  predicate Pending(pc: ControlPc) {
    pc.Decided? || pc.Copying?
  }

  /** The invariants of the command do not depend on the sensors and on what is read from them. */
  lemma CommandFrame(p: Params, enc: FloatBits, w: World, v: World)
    requires CommandSide(p, enc, w)
    requires v == w.(pc := v.pc, sensors := v.sensors, origins := v.origins, stateOwner := v.stateOwner, callback := v.callback, log := v.log)
    requires v.log == w.log.(messages := v.log.messages, stores := v.log.stores, taken := v.log.taken, resets := v.log.resets,
                             samples := v.log.samples)
    requires v.pc == w.pc || (!Pending(w.pc) && !Pending(v.pc))
    ensures CommandSide(p, enc, v)
  {
  }

  lemma SenseCommand(p: Params, enc: FloatBits, w: World, a: ControlAction)
    requires CommandSide(p, enc, w)
    ensures CommandSide(p, enc, SenseAct(p, w, a))
  {
    CommandFrame(p, enc, w, SenseAct(p, w, a));
  }

  lemma DecisionCommand(p: Params, enc: FloatBits, w: World, input: Input, userJpos: Joints)
    requires CommandSide(p, enc, w) && !Pending(w.pc)
    ensures CommandSide(p, enc, Decision(p, w, input, userJpos))
  {
  }

  lemma DecideCommand(p: Params, enc: FloatBits, w: World, a: ControlAction)
    requires CommandSide(p, enc, w)
    ensures CommandSide(p, enc, DecideAct(p, w, a))
  {
    if a.Decide? && w.pc.Calculating? && Readable(w, GRAVITY_Z) {
      if ModeOf(p, w.control, w.pc.keys) == Ctrl {
        assert CommandSide(p, enc, Checked(w));
        DecisionCommand(p, enc, Checked(w), Input(w.pc.keys, a.userJpos, w.sensors[GRAVITY_Z] > 0.0), a.userJpos);
      } else {
        DecisionCommand(p, enc, w, Input(w.pc.keys, a.userJpos, false), a.userJpos);
      }
    } else if a.DecideDamping? && w.pc.Sampled? {
      DecisionCommand(p, enc, w, Input(w.pc.keys, Fill(0.0), false), Fill(0.0));
    }
  }

  lemma CopyCommand(p: Params, enc: FloatBits, w: World, a: ControlAction)
    requires CommandSide(p, enc, w)
    ensures CommandSide(p, enc, CopyAct(enc, w, a))
  {
    var prior := Version(enc, w.log, w.log.copied);
    var next := Command(enc, w.control.target);
    MixedEnds(next, prior);
    if a.CopyWord? && w.pc.Copying? && w.pc.done < WORDS {
      MixedStep(next, prior, w.pc.done);
    }
  }

  lemma WriterThreadCommand(p: Params, enc: FloatBits, w: World, a: WriterAction)
    requires CommandSide(p, enc, w)
    ensures CommandSide(p, enc, WriterAct(w, a))
  {
    if w.writer.Fetching? {
      var prior := Version(enc, w.log, w.log.copied);
      var k := |w.writer.words|;
      if k < WORDS {
        PrefixStep(prior, k);
      } else {
        assert prior[..k] == prior;
      }
    }
  }

  // ---------------------------------------------------------------- the sensors

  /** All messages whose storing has begun, after the initial values. */
  ghost function Begun(w: World): seq<Sensed> {
    w.log.messages + if w.callback.Storing? then [w.callback.message] else []
  }

  /** How many words of the message in progress are in place. */
  function Done(w: World): nat {
    if w.callback.Storing? then w.callback.done else 0
  }

  /** Whole except while the callback holds the mutex, and then exactly the first `Done` words are new; `origins` tells
      which word came with which message. */
  ghost predicate SensorInv(w: World) {
    && |w.log.messages| > 0 && |w.sensors| == SENSED && |w.origins| == SENSED && Done(w) <= SENSED
    && w.log.stores == SENSED * (|w.log.messages| - 1) + Done(w)
    && (w.pc.Reading? <==> w.stateOwner == ControlThread)
    && (w.callback.Storing? <==> w.stateOwner == StateCallback)
    && (forall i :: 0 <= i < SENSED ==> w.origins[i] == |w.log.messages| - 1 + if i < Done(w) then 1 else 0)
    && (forall i :: 0 <= i < SENSED ==> w.sensors[i] == Begun(w)[w.origins[i]][i])
  }

  /** The number of the message that wrote word `index`, when the callback has written `stores` words in all. */
  function Origin(index: nat, stores: nat): nat
    requires index < SENSED
  {
    (stores + SENSED - 1 - index) / SENSED
  }

  /** A word that was read is that word of its message, and the message is told by the number of stores. */
  ghost predicate Genuine(begun: seq<Sensed>, stores: nat, g: Got) {
    && g.index < SENSED && g.origin < |begun| && g.value == begun[g.origin][g.index]
    && g.stores <= stores && g.origin == Origin(g.index, g.stores)
  }

  /** A sequence of reads, in time. */
  ghost predicate Gathered(begun: seq<Sensed>, stores: nat, got: seq<Got>) {
    && (forall j :: 0 <= j < |got| ==> Genuine(begun, stores, got[j]))
    && (forall i, j :: 0 <= i < j < |got| ==> got[i].stores <= got[j].stores)
  }

  /** Every word read under the mutex is from the newest message that was complete when it was taken. */
  ghost predicate Whole(messages: seq<Sensed>, r: Read) {
    0 < r.after <= |messages| &&
    forall j :: 0 <= j < |r.got| ==>
      r.got[j].index < SENSED && r.got[j].origin == r.after - 1 && r.got[j].value == messages[r.after - 1][r.got[j].index]
  }

  ghost predicate Sound(begun: seq<Sensed>, c: Check) {
    c.given <= c.seen < |begun| && c.seen == Origin(GRAVITY_Z, c.stores)
  }

  ghost predicate ReadInv(w: World) {
    && (w.pc.Resetting? ==> Gathered(Begun(w), w.log.stores, w.pc.got))
    && (w.pc.Reading? ==> w.pc.read.after == |w.log.messages| && Whole(w.log.messages, w.pc.read))
    && (w.pc.Calculating? ==> w.pc.given < |w.log.messages|)
    && (forall i :: 0 <= i < |w.log.resets| ==> Gathered(Begun(w), w.log.stores, w.log.resets[i]))
    && (forall i :: 0 <= i < |w.log.taken| ==> Whole(w.log.messages, w.log.taken[i]))
    && (forall i :: 0 <= i < |w.log.checks| ==> Sound(Begun(w), w.log.checks[i]))
  }

  lemma LookGenuine(w: World, index: nat)
    requires SensorInv(w) && index < SENSED
    ensures Genuine(Begun(w), w.log.stores, Look(w, index))
    ensures !w.callback.Storing? ==> w.origins[index] == |w.log.messages| - 1
  {
    var n, d := |w.log.messages| - 1, Done(w);
    assert w.log.stores == SENSED * n + d;
    assert Origin(index, w.log.stores) == n + if index < d then 1 else 0;
  }

  lemma GatherNext(begun: seq<Sensed>, stores: nat, got: seq<Got>, g: Got)
    requires Gathered(begun, stores, got) && Genuine(begun, stores, g) && g.stores == stores
    ensures Gathered(begun, stores, got + [g])
  {
  }

  lemma GatheredLater(begun: seq<Sensed>, stores: nat, got: seq<Got>, begun': seq<Sensed>, stores': nat)
    requires Gathered(begun, stores, got) && begun <= begun' && stores <= stores'
    ensures Gathered(begun', stores', got)
  {
    forall j | 0 <= j < |got| ensures Genuine(begun', stores', got[j]) {
      assert Genuine(begun, stores, got[j]);
    }
  }

  lemma WholeLater(messages: seq<Sensed>, r: Read, messages': seq<Sensed>)
    requires Whole(messages, r) && messages <= messages'
    ensures Whole(messages', r)
  {
  }

  ghost predicate SensorSide(w: World) {
    SensorInv(w) && ReadInv(w)
  }

  /** The invariants of the sensors do not depend on the command. */
  lemma SensorFrame(w: World, v: World)
    requires SensorSide(w)
    requires v == w.(control := v.control, pc := v.pc, cmd := v.cmd, cmdOwner := v.cmdOwner, writer := v.writer, log := v.log)
    requires v.log == w.log.(states := v.log.states, inputs := v.log.inputs, copied := v.log.copied, published := v.log.published,
                             wanted := v.log.wanted)
    requires v.pc == w.pc || (!w.pc.Reading? && (v.pc == Idle || Pending(v.pc)))
    ensures SensorSide(v)
  {
    assert Begun(v) == Begun(w);
  }

  lemma SenseSensor(p: Params, w: World, a: ControlAction)
    requires SensorSide(w)
    ensures SensorInv(SenseAct(p, w, a)) && Begun(SenseAct(p, w, a)) == Begun(w)
  {
  }

  lemma SenseRead(p: Params, w: World, a: ControlAction)
    requires SensorSide(w) && Begun(SenseAct(p, w, a)) == Begun(w)
    ensures ReadInv(SenseAct(p, w, a))
  {
    if a.ResetRead? && w.pc.Resetting? && Readable(w, a.index) {
      LookGenuine(w, a.index);
      GatherNext(Begun(w), w.log.stores, w.pc.got, Look(w, a.index));
    } else if a.ReadSensor? && w.pc.Reading? && Readable(w, a.index) {
      LookGenuine(w, a.index);
      assert Begun(w) == w.log.messages;
    }
  }

  lemma DecisionSensor(p: Params, w: World, input: Input, userJpos: Joints)
    requires SensorSide(w) && !w.pc.Reading?
    ensures SensorSide(Decision(p, w, input, userJpos))
  {
    SensorFrame(w, Decision(p, w, input, userJpos));
  }

  lemma CheckSensor(w: World)
    requires SensorSide(w) && w.pc.Calculating?
    ensures SensorSide(Checked(w))
  {
    LookGenuine(w, GRAVITY_Z);
    var c := Check(|w.log.inputs|, w.pc.given, w.origins[GRAVITY_Z], w.log.stores);
    assert Sound(Begun(w), c);
    assert Begun(Checked(w)) == Begun(w);
  }

  lemma DecideSensor(p: Params, w: World, a: ControlAction)
    requires SensorSide(w)
    ensures SensorSide(DecideAct(p, w, a))
  {
    if a.Decide? && w.pc.Calculating? {
      CheckSensor(w);
      if ModeOf(p, w.control, w.pc.keys) == Ctrl {
        DecisionSensor(p, Checked(w), Input(w.pc.keys, a.userJpos, w.sensors[GRAVITY_Z] > 0.0), a.userJpos);
      } else {
        DecisionSensor(p, w, Input(w.pc.keys, a.userJpos, false), a.userJpos);
      }
    } else if a.DecideDamping? && w.pc.Sampled? {
      DecisionSensor(p, w, Input(w.pc.keys, Fill(0.0), false), Fill(0.0));
    }
  }

  lemma CopySensor(enc: FloatBits, w: World, a: ControlAction)
    requires SensorSide(w)
    ensures SensorSide(CopyAct(enc, w, a))
  {
    SensorFrame(w, CopyAct(enc, w, a));
  }

  lemma WriterSensor(w: World, a: WriterAction)
    requires SensorSide(w)
    ensures SensorSide(WriterAct(w, a))
  {
    SensorFrame(w, WriterAct(w, a));
  }

  lemma CallbackSensor(w: World, a: CallbackAction)
    requires SensorInv(w)
    ensures SensorInv(CallbackAct(w, a)) && Begun(w) <= Begun(CallbackAct(w, a))
  {
  }

  lemma CallbackRead(w: World, a: CallbackAction)
    requires SensorInv(w) && ReadInv(w) && Begun(w) <= Begun(CallbackAct(w, a))
    ensures ReadInv(CallbackAct(w, a))
  {
    var v := CallbackAct(w, a);
    assert w.log.messages <= v.log.messages && w.log.stores <= v.log.stores;
    if w.pc.Resetting? {
      GatheredLater(Begun(w), w.log.stores, w.pc.got, Begun(v), v.log.stores);
    }
    forall i | 0 <= i < |v.log.resets| ensures Gathered(Begun(v), v.log.stores, v.log.resets[i]) {
      GatheredLater(Begun(w), w.log.stores, w.log.resets[i], Begun(v), v.log.stores);
    }
    forall i | 0 <= i < |v.log.taken| ensures Whole(v.log.messages, v.log.taken[i]) {
      WholeLater(w.log.messages, w.log.taken[i], v.log.messages);
    }
  }

  // ---------------------------------------------------------------- what a step was given

  /** A step is under way and not yet decided. */
  predicate Undecided(pc: ControlPc) {
    pc.Resetting? || pc.Sampled? || pc.Reading? || pc.Calculating?
  }

  /** The fall check of step `n`. */
  ghost predicate CheckOf(w: World, n: nat, i: int) {
    0 <= i < |w.log.checks| && w.log.checks[i].step == n
  }

  /** It read an upward gravity. */
  ghost predicate UpwardAt(w: World, n: nat, i: int) {
    CheckOf(w, n, i) && SawUpward(Begun(w), w.log.checks[i])
  }

  /** The input of step `n`: the gamepad sample of that step, what the user controller calculated in it, and a fall if and
      only if it is a step in CTRL whose fall check saw an upward gravity. */
  ghost predicate Given(p: Params, w: World, n: nat) {
    && n < |w.log.inputs| && n < |w.log.states| && n < |w.log.samples| && n < |w.log.wanted|
    && w.log.inputs[n].keys == w.log.samples[n] && w.log.inputs[n].userJpos == w.log.wanted[n]
    && (ModeOf(p, w.log.states[n], w.log.samples[n]) == Ctrl <==> exists i :: CheckOf(w, n, i))
    && (w.log.inputs[n].fallen <==> exists i :: UpwardAt(w, n, i))
  }

  /** The gravity word that the check read points up. */
  ghost predicate SawUpward(begun: seq<Sensed>, c: Check) {
    c.seen < |begun| && begun[c.seen][12] > 0.0
  }

  ghost predicate InputInv(p: Params, w: World) {
    && |w.log.states| == |w.log.inputs| + 1 && |w.log.wanted| == |w.log.inputs|
    && |w.log.samples| == |w.log.inputs| + (if Undecided(w.pc) then 1 else 0)
    && (Undecided(w.pc) ==> w.pc.keys == w.log.samples[|w.log.inputs|])
    && (forall i :: 0 <= i < |w.log.checks| ==> w.log.checks[i].step < |w.log.inputs| && w.log.checks[i].seen < |Begun(w)|)
    && (forall n :: 0 <= n < |w.log.inputs| ==> Given(p, w, n))
  }

  /** More messages and samples do not change what the decided steps were given. */
  lemma GivenKept(p: Params, w: World, v: World, n: nat)
    requires Given(p, w, n) && w.log.inputs == v.log.inputs && w.log.states == v.log.states && w.log.wanted == v.log.wanted
    requires w.log.checks == v.log.checks && w.log.samples <= v.log.samples && Begun(w) <= Begun(v)
    requires forall i :: 0 <= i < |w.log.checks| ==> w.log.checks[i].seen < |Begun(w)|
    ensures Given(p, v, n)
  {
    forall i ensures (CheckOf(w, n, i) <==> CheckOf(v, n, i)) && (UpwardAt(w, n, i) <==> UpwardAt(v, n, i)) {
    }
  }

  lemma InputFrame(p: Params, w: World, v: World)
    requires InputInv(p, w) && w.log.inputs == v.log.inputs && w.log.states == v.log.states && w.log.wanted == v.log.wanted
    requires w.log.checks == v.log.checks && w.log.samples <= v.log.samples && Begun(w) <= Begun(v)
    requires |v.log.samples| == |v.log.inputs| + (if Undecided(v.pc) then 1 else 0)
    requires Undecided(v.pc) ==> v.pc.keys == v.log.samples[|v.log.inputs|]
    ensures InputInv(p, v)
  {
    forall n | 0 <= n < |v.log.inputs| ensures Given(p, v, n) {
      GivenKept(p, w, v, n);
    }
  }

  /** Deciding: the newest step is given what it sampled and calculated, and its fall check if it made one. */
  lemma DecisionGiven(p: Params, w: World, v: World, input: Input, userJpos: Joints, checked: bool)
    requires InputInv(p, w) && Undecided(w.pc) && Pending(v.pc)
    requires v.log.inputs == w.log.inputs + [input] && w.log.states <= v.log.states && |v.log.states| == |w.log.states| + 1
    requires v.log.wanted == w.log.wanted + [userJpos] && v.log.samples == w.log.samples && Begun(v) == Begun(w)
    requires input.keys == w.pc.keys && input.userJpos == userJpos
    requires checked <==> ModeOf(p, w.log.states[|w.log.inputs|], w.pc.keys) == Ctrl
    requires if checked then
               |v.log.checks| == |w.log.checks| + 1 && w.log.checks <= v.log.checks &&
               v.log.checks[|w.log.checks|].step == |w.log.inputs| && v.log.checks[|w.log.checks|].seen < |Begun(w)| &&
               (input.fallen <==> SawUpward(Begun(w), v.log.checks[|w.log.checks|]))
             else v.log.checks == w.log.checks && !input.fallen
    ensures InputInv(p, v)
  {
    var k := |w.log.inputs|;
    forall n | 0 <= n < k ensures Given(p, v, n) {
      GivenBefore(p, w, v, n);
    }
    GivenLast(p, w, v, input, checked);
  }

  lemma GivenBefore(p: Params, w: World, v: World, n: nat)
    requires InputInv(p, w) && n < |w.log.inputs| && Given(p, w, n)
    requires w.log.inputs <= v.log.inputs && w.log.states <= v.log.states && w.log.wanted <= v.log.wanted
    requires v.log.samples == w.log.samples && Begun(v) == Begun(w) && w.log.checks <= v.log.checks
    requires forall i :: |w.log.checks| <= i < |v.log.checks| ==> v.log.checks[i].step == |w.log.inputs|
    ensures Given(p, v, n)
  {
    forall i ensures (CheckOf(w, n, i) <==> CheckOf(v, n, i)) && (UpwardAt(w, n, i) <==> UpwardAt(v, n, i)) {
      assert 0 <= i < |w.log.checks| ==> v.log.checks[i] == w.log.checks[i];
    }
  }

  lemma GivenLast(p: Params, w: World, v: World, input: Input, checked: bool)
    requires InputInv(p, w) && Undecided(w.pc)
    requires var k := |w.log.inputs|;
             && |v.log.inputs| == k + 1 && v.log.inputs[k] == input && |v.log.states| == k + 2 && v.log.states[k] == w.log.states[k]
             && |v.log.wanted| == k + 1 && v.log.wanted[k] == input.userJpos && v.log.samples == w.log.samples && Begun(v) == Begun(w)
             && input.keys == w.pc.keys && (checked <==> ModeOf(p, w.log.states[k], w.pc.keys) == Ctrl)
             && w.log.checks <= v.log.checks
             && (if checked then
                   |v.log.checks| == |w.log.checks| + 1 && v.log.checks[|w.log.checks|].step == k &&
                   (input.fallen <==> SawUpward(Begun(w), v.log.checks[|w.log.checks|]))
                 else v.log.checks == w.log.checks && !input.fallen)
    ensures Given(p, v, |w.log.inputs|)
  {
    var k, last := |w.log.inputs|, |w.log.checks|;
    forall i ensures CheckOf(v, k, i) <==> checked && i == last {
      assert 0 <= i < last ==> v.log.checks[i] == w.log.checks[i];
    }
    assert checked ==> CheckOf(v, k, last) && (UpwardAt(v, k, last) <==> input.fallen);
  }

  lemma DecideInput(p: Params, enc: FloatBits, w: World, a: ControlAction)
    requires CommandSide(p, enc, w) && SensorSide(w) && InputInv(p, w)
    ensures InputInv(p, DecideAct(p, w, a))
  {
    var v := DecideAct(p, w, a);
    if a.Decide? && w.pc.Calculating? {
      LookGenuine(w, GRAVITY_Z);
      assert Begun(v) == Begun(w);
      if ModeOf(p, w.control, w.pc.keys) == Ctrl {
        assert v.log.checks[|w.log.checks|].seen == w.origins[GRAVITY_Z];
        DecisionGiven(p, w, v, Input(w.pc.keys, a.userJpos, w.sensors[GRAVITY_Z] > 0.0), a.userJpos, true);
      } else {
        DecisionGiven(p, w, v, Input(w.pc.keys, a.userJpos, false), a.userJpos, false);
      }
    } else if a.DecideDamping? && w.pc.Sampled? && ModeOf(p, w.control, w.pc.keys) == Damping {
      assert Begun(v) == Begun(w);
      DecisionGiven(p, w, v, Input(w.pc.keys, Fill(0.0), false), Fill(0.0), false);
    }
  }

  // ---------------------------------------------------------------- every interleaving

  ghost predicate Inv(p: Params, enc: FloatBits, w: World) {
    CommandSide(p, enc, w) && SensorSide(w) && InputInv(p, w)
  }

  lemma DecideKeeps(p: Params, enc: FloatBits, w: World, a: ControlAction)
    requires Inv(p, enc, w)
    ensures Inv(p, enc, DecideAct(p, w, a))
  {
    DecideCommand(p, enc, w, a);
    DecideSensor(p, w, a);
    DecideInput(p, enc, w, a);
  }

  lemma CopyKeeps(p: Params, enc: FloatBits, w: World, a: ControlAction)
    requires Inv(p, enc, w)
    ensures Inv(p, enc, CopyAct(enc, w, a))
  {
    CopyCommand(p, enc, w, a);
    CopySensor(enc, w, a);
    InputFrame(p, w, CopyAct(enc, w, a));
  }

  lemma SenseKeeps(p: Params, enc: FloatBits, w: World, a: ControlAction)
    requires Inv(p, enc, w)
    ensures Inv(p, enc, SenseAct(p, w, a))
  {
    SenseCommand(p, enc, w, a);
    SenseSensor(p, w, a);
    SenseRead(p, w, a);
    SenseInput(p, w, a);
  }

  lemma SenseInput(p: Params, w: World, a: ControlAction)
    requires InputInv(p, w) && Begun(SenseAct(p, w, a)) == Begun(w)
    ensures InputInv(p, SenseAct(p, w, a))
  {
    InputFrame(p, w, SenseAct(p, w, a));
  }

  lemma WriterKeeps(p: Params, enc: FloatBits, w: World, a: WriterAction)
    requires Inv(p, enc, w)
    ensures Inv(p, enc, WriterAct(w, a))
  {
    WriterThreadCommand(p, enc, w, a);
    WriterSensor(w, a);
    InputFrame(p, w, WriterAct(w, a));
  }

  lemma CallbackKeeps(p: Params, enc: FloatBits, w: World, a: CallbackAction)
    requires Inv(p, enc, w)
    ensures Inv(p, enc, CallbackAct(w, a))
  {
    CommandFrame(p, enc, w, CallbackAct(w, a));
    CallbackSensor(w, a);
    CallbackRead(w, a);
    InputFrame(p, w, CallbackAct(w, a));
  }

  lemma ActInv(p: Params, enc: FloatBits, w: World, a: Action)
    requires Inv(p, enc, w)
    ensures Inv(p, enc, Act(p, enc, w, a))
  {
    match a
    case ByControl(c) =>
      DecideKeeps(p, enc, w, c);
      CopyKeeps(p, enc, w, c);
      SenseKeeps(p, enc, w, c);
    case ByWriter(c) => WriterKeeps(p, enc, w, c);
    case ByCallback(c) => CallbackKeeps(p, enc, w, c);
  }

  lemma InitInv(p: Params, enc: FloatBits, start: Control, sensors: Sensed)
    ensures Inv(p, enc, Init(start, sensors))
  {
  }

  lemma {:induction false} EveryInterleaving(p: Params, enc: FloatBits, start: Control, sensors: Sensed, actions: seq<Action>)
    ensures Inv(p, enc, Run(p, enc, Init(start, sensors), actions))
  {
    if actions == [] {
      InitInv(p, enc, start, sensors);
    } else {
      var init := actions[..|actions| - 1];
      EveryInterleaving(p, enc, start, sensors, init);
      ActInv(p, enc, Run(p, enc, Init(start, sensors), init), actions[|actions| - 1]);
    }
  }

  // ---------------------------------------------------------------- what is published

  /** In every interleaving, every published command is, whole, the newest one completed when the writer took the
      mutex: the default before the first control step, else exactly what one `SetCommand` built from the settings of
      one step of a controller run. Its checksum test gives zero exactly in the latter case. */
  lemma PublishedWhole(p: Params, enc: FloatBits, start: Control, sensors: Sensed, actions: seq<Action>, i: nat)
    requires i < |Run(p, enc, Init(start, sensors), actions).log.published|
    ensures var log := Run(p, enc, Init(start, sensors), actions).log;
            var q := log.published[i];
            && IsRun(p, log.states, log.inputs) && q.after < |log.states|
            && q.words == (if q.after == 0 then Default() else Command(enc, log.states[q.after].target))
            && (Crc32.Crc(q.words) == Zeros() <==> q.after > 0)
  {
    EveryInterleaving(p, enc, start, sensors, actions);
    var log := Run(p, enc, Init(start, sensors), actions).log;
    var q := log.published[i];
    if q.after == 0 {
      DefaultResidue();
    } else {
      CommandResidue(enc, log.states[q.after].target);
    }
  }

  function StandSettings(p: Params, pd: real): Settings {
    Settings(p.initPos, Fill(0.0), Fill(40.0 * pd), Fill(pd), Fill(0.0))
  }

  /** Damping; or the initial pose with the gains of some ramp value; or what the user controller wants in that step,
      with the configured gains, and only with the ratio of the state before above the threshold. */
  ghost predicate SafeSettings(p: Params, before: Control, jpos: Joints, s: Settings) {
    || s == Settings(p.initPos, Fill(0.0), Fill(0.0), Fill(2.0), Fill(0.0))
    || (exists pd: real :: 0.0 <= pd <= 1.0 && s == StandSettings(p, pd))
    || (before.machine.pd > 0.95 && s == Settings(jpos, Fill(0.0), Fill(p.kp), Fill(p.kd), Fill(0.0)))
  }

  /** The initial pose without velocity and torque, at most one ramp step stiff. */
  ghost predicate Soft(p: Params, s: Settings) {
    && s.jposDes == p.initPos && s.jvelDes == Fill(0.0) && s.tauFf == Fill(0.0)
    && exists k :: 0.0 <= k <= 0.2 && s.kp == Fill(k)
  }

  /** The fall check of step `n` saw an upward gravity. */
  ghost predicate SawFall(w: World, n: nat) {
    exists i :: UpwardAt(w, n, i)
  }

  /** What step `n` may command: one of the safe kinds, with the targets calculated in that step; damping if L2 and B were
      sampled; soft if the fall check of the step before saw an upward gravity. */
  ghost predicate StepCommands(p: Params, w: World, n: nat, s: Settings) {
    && n < |w.log.states| && n < |w.log.samples| && n < |w.log.wanted|
    && SafeSettings(p, w.log.states[n], w.log.wanted[n], s)
    && (w.log.samples[n].l2 && w.log.samples[n].b ==> s == Settings(p.initPos, Fill(0.0), Fill(0.0), Fill(2.0), Fill(0.0)))
    && (n > 0 && SawFall(w, n - 1) ==> Soft(p, s))
  }

  /** Once started, no interleaving publishes anything but the default command and the safe commands of the step they
      come from. */
  lemma PublishedSafe(p: Params, enc: FloatBits, pad: Pad, sensors: Sensed, actions: seq<Action>, i: nat)
    requires i < |Run(p, enc, Init(Start(p, pad), sensors), actions).log.published|
    ensures var w := Run(p, enc, Init(Start(p, pad), sensors), actions);
            var q := w.log.published[i];
            if q.after == 0 then q.words == Default()
            else exists s :: StepCommands(p, w, q.after - 1, s) && q.words == Command(enc, s)
  {
    PublishedWhole(p, enc, Start(p, pad), sensors, actions, i);
    EveryInterleaving(p, enc, Start(p, pad), sensors, actions);
    var w := Run(p, enc, Init(Start(p, pad), sensors), actions);
    StartInv(p, pad);
    StartKept(p, enc, Start(p, pad), sensors, actions);
    if w.log.published[i].after > 0 {
      SafeStep(p, w, w.log.published[i].after - 1);
    }
  }

  lemma SafeStep(p: Params, w: World, n: nat)
    requires IsRun(p, w.log.states, w.log.inputs) && ControlRuns.Inv(p, w.log.states[0]) && n < |w.log.inputs| && InputInv(p, w)
    ensures StepCommands(p, w, n, w.log.states[n + 1].target)
  {
    var states, inputs := w.log.states, w.log.inputs;
    assert Given(p, w, n);
    SafeKind(p, states, inputs, n);
    if inputs[n].keys.l2 && inputs[n].keys.b {
      EmergencyStop(p, states[n], inputs[n]);
    }
    if n > 0 && SawFall(w, n - 1) {
      SoftStep(p, w, n);
    }
  }

  lemma SoftStep(p: Params, w: World, n: nat)
    requires IsRun(p, w.log.states, w.log.inputs) && ControlRuns.Inv(p, w.log.states[0]) && 0 < n < |w.log.inputs| && InputInv(p, w)
    requires SawFall(w, n - 1)
    ensures Soft(p, w.log.states[n + 1].target)
  {
    var states, inputs := w.log.states, w.log.inputs;
    assert Given(p, w, n - 1);
    var i :| UpwardAt(w, n - 1, i);
    assert CheckOf(w, n - 1, i);
    ControlRuns.RunInv(p, states, inputs, n - 1);
    AfterFall(p, states[n - 1], inputs[n - 1], inputs[n]);
  }

  lemma SafeKind(p: Params, states: seq<Control>, inputs: seq<Input>, n: nat)
    requires IsRun(p, states, inputs) && ControlRuns.Inv(p, states[0]) && n < |inputs|
    ensures SafeSettings(p, states[n], inputs[n].userJpos, states[n + 1].target)
  {
    CommandKinds(p, states, inputs, n);
    ControlRuns.RunInv(p, states, inputs, n + 1);
    var pd := states[n + 1].machine.pd;
    assert states[n + 1].target == StandSettings(p, pd) ==> SafeSettings(p, states[n], inputs[n].userJpos, states[n + 1].target);
  }

  lemma {:induction false} StartKept(p: Params, enc: FloatBits, start: Control, sensors: Sensed, actions: seq<Action>)
    ensures var states := Run(p, enc, Init(start, sensors), actions).log.states;
            |states| > 0 && states[0] == start
  {
    if actions != [] {
      StartKept(p, enc, start, sensors, actions[..|actions| - 1]);
      StatesGrow(p, enc, Run(p, enc, Init(start, sensors), actions[..|actions| - 1]), actions[|actions| - 1]);
    }
  }

  lemma StatesGrow(p: Params, enc: FloatBits, w: World, a: Action)
    ensures w.log.states <= Act(p, enc, w, a).log.states
  {
  }

  // ---------------------------------------------------------------- what the user controller reads

  /** What the user controller reads under the mutex is, in every interleaving, from one complete message (or the initial
      values), the newest one when the mutex was taken. */
  lemma ReadWhole(p: Params, enc: FloatBits, start: Control, sensors: Sensed, actions: seq<Action>, i: nat)
    requires i < |Run(p, enc, Init(start, sensors), actions).log.taken|
    ensures var log := Run(p, enc, Init(start, sensors), actions).log;
            Whole(log.messages, log.taken[i])
  {
    EveryInterleaving(p, enc, start, sensors, actions);
  }

  /** The fall check, which reads after the mutex is released, sees the gravity of a message that is not older than the
      one given to the user controller in that step. */
  lemma FallCheckNotOlder(p: Params, enc: FloatBits, start: Control, sensors: Sensed, actions: seq<Action>, i: nat)
    requires i < |Run(p, enc, Init(start, sensors), actions).log.checks|
    ensures var w := Run(p, enc, Init(start, sensors), actions);
            Sound(Begun(w), w.log.checks[i])
  {
    EveryInterleaving(p, enc, start, sensors, actions);
  }

  /** Every decided step got the gamepad sample of that step and the targets calculated in it, and counts as a fall if and
      only if it is a step in CTRL whose fall check read an upward gravity. */
  lemma InputsGiven(p: Params, enc: FloatBits, start: Control, sensors: Sensed, actions: seq<Action>, n: nat)
    requires n < |Run(p, enc, Init(start, sensors), actions).log.inputs|
    ensures Given(p, Run(p, enc, Init(start, sensors), actions), n)
  {
    EveryInterleaving(p, enc, start, sensors, actions);
  }

  /** One decision in CTRL, as an action: an upward gravity word stops the machine, the targets are commanded either way. */
  lemma DecideInCtrl(p: Params, enc: FloatBits, w: World, userJpos: Joints)
    requires w.pc.Calculating? && |w.sensors| == |w.origins| == 49 && ModeOf(p, w.control, w.pc.keys) == Ctrl
    ensures var v := Act(p, enc, w, ByControl(Decide(userJpos)));
            && v.control.machine.mode == (if w.sensors[12] > 0.0 then Damping else Ctrl)
            && v.control.target.jposDes == userJpos && v.pc == Decided
  {
  }

  /** It sees the very message that the user controller was given if and only if the callback has not stored the gravity
      word again by then. */
  lemma FallCheckSame(p: Params, enc: FloatBits, start: Control, sensors: Sensed, actions: seq<Action>, i: nat)
    requires i < |Run(p, enc, Init(start, sensors), actions).log.checks|
    ensures var c := Run(p, enc, Init(start, sensors), actions).log.checks[i];
            c.seen == c.given <==> c.stores <= SENSED * c.given + GRAVITY_Z
  {
    FallCheckNotOlder(p, enc, start, sensors, actions, i);
    var c := Run(p, enc, Init(start, sensors), actions).log.checks[i];
    OriginBetween(c.given, Got(GRAVITY_Z, 0.0, c.seen, c.stores));
    OriginBetween(c.seen, Got(GRAVITY_Z, 0.0, c.seen, c.stores));
  }

  ghost predicate FromOneMessage(got: seq<Got>) {
    forall j :: 0 <= j < |got| ==> got[j].origin == got[0].origin
  }

  /** By the time `g` was read its word had been stored by message `k`, and not yet by message `k + 1`. */
  predicate BetweenStores(k: nat, g: Got) {
    SENSED * k + g.index < g.stores + SENSED && g.stores <= SENSED * k + g.index
  }

  lemma OriginBetween(k: nat, g: Got)
    requires g.index < SENSED
    ensures Origin(g.index, g.stores) == k <==> BetweenStores(k, g)
  {
  }

  /** What the user controller reads on entering CTRL, without the mutex. In every interleaving each word is that of the
      message told by the number of words stored so far, and all of them are from one message if and only if the
      callback stays, at every word read, within the same turn: it has stored that word with the message of the first
      word read, and not yet with the next. */
  lemma ResetWhole(p: Params, enc: FloatBits, start: Control, sensors: Sensed, actions: seq<Action>, i: nat)
    requires i < |Run(p, enc, Init(start, sensors), actions).log.resets|
    ensures var w := Run(p, enc, Init(start, sensors), actions);
            var got := w.log.resets[i];
            && Gathered(Begun(w), w.log.stores, got)
            && (got != [] ==>
                  (FromOneMessage(got) <==>
                   forall j :: 0 <= j < |got| ==> BetweenStores(Origin(got[0].index, got[0].stores), got[j])))
  {
    EveryInterleaving(p, enc, start, sensors, actions);
    var w := Run(p, enc, Init(start, sensors), actions);
    var got := w.log.resets[i];
    if got != [] {
      forall j | 0 <= j < |got| ensures got[j].origin == got[0].origin <==> BetweenStores(Origin(got[0].index, got[0].stores), got[j]) {
        assert Genuine(Begun(w), w.log.stores, got[j]) && Genuine(Begun(w), w.log.stores, got[0]);
        OriginBetween(got[0].origin, got[j]);
      }
    }
  }

  /** If the callback was not in the middle of a message at the first word, then everything is from one message exactly
      when no word had been stored again before it was read; in particular when nothing was stored meanwhile. */
  lemma ResetSettled(begun: seq<Sensed>, stores: nat, got: seq<Got>)
    requires Gathered(begun, stores, got) && got != [] && got[0].stores % SENSED == 0
    ensures FromOneMessage(got) <==> forall j :: 0 <= j < |got| ==> got[j].stores - got[0].stores <= got[j].index
  {
    var k := got[0].stores / SENSED;
    assert Genuine(begun, stores, got[0]) && got[0].origin == k;
    forall j | 0 <= j < |got| ensures got[j].origin == k <==> got[j].stores - got[0].stores <= got[j].index {
      assert Genuine(begun, stores, got[j]) && (j > 0 ==> got[0].stores <= got[j].stores);
      OriginBetween(k, got[j]);
    }
  }

  /** If nothing was stored from the first word to the last, then everything is from one message exactly when the callback
      did not stand between two of the words read. */
  lemma ResetQuiet(begun: seq<Sensed>, stores: nat, got: seq<Got>)
    requires Gathered(begun, stores, got) && got != [] && got[|got| - 1].stores == got[0].stores
    ensures var done := got[0].stores % SENSED;
            FromOneMessage(got) <==>
            (forall j :: 0 <= j < |got| ==> done <= got[j].index) || (forall j :: 0 <= j < |got| ==> got[j].index < done)
  {
    var done, k := got[0].stores % SENSED, got[0].stores / SENSED;
    forall j | 0 <= j < |got| ensures got[j].origin == k + if got[j].index < done then 1 else 0 {
      assert Genuine(begun, stores, got[j]);
      assert got[0].stores <= got[j].stores <= got[|got| - 1].stores;
      OriginBetween(k, got[j]);
      OriginBetween(k + 1, got[j]);
    }
  }
}
