# Proofs about the Unitree SDK 2 examples (TypeGo fork)

A Dafny model of the parts of `unitree_sdk2_typego` that hold state, protocol or arithmetic of their own, with proofs
about every input, every run or every interleaving:

- the low-level controller of `example/state_machine`: the gamepad-driven DAMPING / STAND / CTRL machine with its
  stiffness ramp, emergency stop and fall check, and its control thread, writer thread and state callback
  (`ControlSpec`, `ControlRuns`, `RobotController`, `CommandThreads`, `CommandSchedules`, `Gravity`, `LowCommand`);
- the checksum stamped on every low-level command, as polynomial division over GF(2) (`Gf2`, `Words`, `Crc32`);
- the two lidar services, which cut point and IMU streams into datagrams, the lock-free log counter and the key/value
  walk (`Bytes`, `LidarFilter`, `LidarFull`, `LogCounter`, `KeyValueWalk`), and the high-state forwarder
  (`StateForwarder`);
- the stand-up sequencers (`StandSequencer`, `StandExamples`);
- the remote-control loops with their PID controllers (`Pid`, `RemoteControl`);
- two pieces of the bundled asio: the socket stream buffer, and the type-erased completion handler with its
  over-aligned allocation (`SocketStreambuf`, `CompletionHandler`, `AlignedBlock`).

Code that updates objects, buffers or loop variables is modelled by classes, arrays and loops, proved against functions
on values; the theorems about runs are about those functions. Threads are state machines whose actions are single
accesses to shared memory or mutex operations, and a theorem about threads holds for every sequence of actions. Floating-point
numbers are reals, machine words are their 32 bits, 16-bit counters wrap explicitly, and the host is little-endian.

`dafny verify dfyconfig.toml` checks everything.

## Findings

- On entering CTRL the user controller is reset, and reads the sensors without the state mutex, so it can get a mix of two
  state messages. `CommandSchedules.ResetTorn` gives the interleaving from the start of the controller, for any two words;
  `CommandThreads.ResetWhole` says exactly when all words are from one message. Reads under the mutex are whole (`CommandThreads.ReadWhole`).
- The fall check reads the gravity word after the mutex is released, so it can see a newer message than the user
  controller was given in that step (`CommandSchedules.FallCheckNewer`, from the start of the controller), never an older
  one (`CommandThreads.FallCheckNotOlder`), and the same one exactly when the callback has not stored the gravity word
  again (`CommandThreads.FallCheckSame`).
- A command published before the first control step is a default-constructed one, whose checksum does not match.
  `CommandSchedules.DefaultPublished` gives the interleaving, `CommandThreads.PublishedWhole` the exact condition.
- The step in which a fall is detected still sends the user controller's targets; the step after it does not
  (`ControlRuns.CommandKinds`, `ControlRuns.AfterFall`).
- The seconds field of a lidar packet is cut to 32 bits, so a timestamp comes back exactly when it is below 2^32 seconds
  (`LidarFull.TimestampRecombines`).
- A failed `overflow` of the stream buffer leaves the bytes already taken by the socket in the put area, so the next flush
  sends them again (`SocketStreambuf.FlushedTwice`, with two bytes in `SocketStreambuf.DuplicateByte`); nothing is
  duplicated exactly when none was taken (`SocketStreambuf.OverflowOutput`).
- The documentation of the completion handler says that a call leaves the wrapper empty; its function-table pointer
  stays set. The call of a non-empty wrapper is the only operation that makes the two pointers disagree
  (`CompletionHandler.AgreeKept`).
- The phases of the stand examples overlap by one tick each, so n phases take n - 1 ticks less than the sum of their
  durations (`StandSequencer.CompletionTick`); the wheels roll back one tick more than forward unless twice the duration
  is 1 or 2 modulo 5 (`StandSequencer.WheelBalance`).

## Model

| member | source | states |
|---|---|---|
| `Crc32.PolynomialValue` | example/state_machine/conversion.hpp:38 | the bit pattern used below is 0x04c11db7 |
| `Crc32.OnesValue` | example/state_machine/conversion.hpp:37 | the register starts with the value 0xFFFFFFFF |
| `Crc32.StepPoly` | example/state_machine/conversion.hpp:43-56 | one inner pass multiplies by x, adds the data bit at x^32 and subtracts the generator exactly when the bit shifted out and the data bit differ |
| `Crc32.FeedDivides` | example/state_machine/conversion.hpp:39-57 | for every bit string there is a quotient with dividend = quotient * generator + register |
| `Crc32.CrcIsRemainder` | example/state_machine/conversion.hpp:33-59 | for every word sequence of n words, a polynomial is a remainder modulo the generator of the dividend whose top 32 coefficients (below x^(32n+32)) are ones, added to the message bits in order, highest bit of the first word first, shifted up by 32, if and only if its coefficients are the 32 bits of the checksum |
| `Crc32.StepLinear` | example/state_machine/conversion.hpp:45-53 | a pass is linear in register and data bit together |
| `Crc32.StepInjective` | example/state_machine/conversion.hpp:45-53 | for a fixed data bit no two registers give the same register |
| `Crc32.FeedLinear` | example/state_machine/conversion.hpp:39-57 | any number of passes is linear |
| `Crc32.FeedInjective` | example/state_machine/conversion.hpp:39-57 | any number of passes over the same bits keeps different registers different |
| `Crc32.FeedWord` | example/state_machine/conversion.hpp:41-56 | feeding a word bit by bit is mixing it in whole and feeding zeros |
| `Crc32.ZeroResidue` | example/state_machine/conversion.hpp:33-59 | the checksum of a message with one word appended is zero if and only if that word is the message's checksum |
| `Crc32.BurstDetected` | example/state_machine/conversion.hpp:33-59 | two different equal-length messages that differ only inside one window of 32 consecutive bits, at any offset, have different checksums |
| `Crc32.Crc32Core` | example/state_machine/conversion.hpp:33-59 | the two nested loops compute the checksum; a polynomial is a remainder of that dividend if and only if its coefficients are the bits of the result |
| `LowCommand.CommandResidue` | example/state_machine/robot_interface.hpp:104-106 | checking any built command, checksum word included, gives zero |
| `LowCommand.DefaultResidue` | include/unitree/idl/go2/LowCmd_.hpp:25-41 | a default-constructed command does not pass that check |
| `LowCommand.CommandSettings` | example/state_machine/robot_interface.hpp:95-102 | words 7 to 11 of each of the twelve nine-word motor blocks after word 6 hold that joint's position, velocity, torque, stiffness and damping, in this order |
| `LowCommand.HeaderWord` | example/state_machine/robot_interface.hpp:110-115 | the first word is 0x00FFEFFE, and the words before and after the motor blocks are zero |
| `LowCommand.UntouchedWord` | example/state_machine/robot_interface.hpp:117-125 | every motor has mode 1; the eight motors without a joint keep the stop values 2146000000 and 16000 and zero gains and torque |
| `LowCommand.CommandInjective` | example/state_machine/robot_interface.hpp:92-107 | two commands are equal if and only if all their settings are, for any injective float encoding |
| `ControlSpec.Button.Updated` | example/state_machine/gamepad.hpp:59-64 | the edge flags are set exactly on a change of the sampled level |
| `RobotController.RobotInterface.GetState` | example/state_machine/robot_interface.hpp:31-49 | the inertial unit and the first twelve motors are read, the gravity direction is recomputed, and the fall check of it is the tilt condition on the quaternion |
| `RobotController.RobotInterface.SetCommand` | example/state_machine/robot_interface.hpp:92-107 | the whole published command is the specified function of the settings, and its checksum test gives zero |
| `RobotController.RobotController.StartControl` | example/state_machine/robot_controller.hpp:64-83 | control starts exactly when some sample has R2 down, in STAND with the ratio 0.1 and damping settings, from which runs begin |
| `RobotController.RobotController.UpdateStateMachine` | example/state_machine/robot_controller.hpp:154-177 | refines the three tests of the specification, in their order; the user controller is reset exactly when CTRL is entered |
| `RobotController.RobotController.CtrlCallback` | example/state_machine/robot_controller.hpp:259-268 | the user controller is given the sensors, and the settings are those of CTRL |
| `RobotController.RobotController.DispatchMode` | example/state_machine/robot_controller.hpp:187-204 | the three mode tests refine the specified dispatch; the user controller is given the sensors exactly outside DAMPING |
| `RobotController.RobotController.ControlStep` | example/state_machine/robot_controller.hpp:179-210 | one period on the objects is one step of the specification, the user controller is given the sensors exactly when the code does so, and the shared command is what that step's settings encode, with a matching checksum |
| `ControlRuns.StepInv` | example/state_machine/robot_controller.hpp:154-210 | every step keeps the invariant: ratio in [0, 1], DAMPING means ratio zero, CTRL means ratio above 0.95 and the configured gains on all joints, velocity and torque targets always zero |
| `ControlRuns.RunInv` | example/state_machine/robot_controller.hpp:154-210 | so it holds in every state of every run, for every gamepad input and every user controller |
| `ControlRuns.StepMachine` | example/state_machine/robot_controller.hpp:154-204 | the whole transition table in terms of the sampled keys: L2 and B stop; A rising above 0.95 while standing enters CTRL, which a fall leaves for DAMPING and an R2 rising edge for STAND; in STAND R2 raises and R1 lowers the ratio by 0.005 inside [0, 1] |
| `ControlRuns.ResetWhen` | example/state_machine/robot_controller.hpp:159-172 | the user controller is reset if and only if A rises while standing (or with R2 rising) above 0.95 |
| `ControlRuns.StartIs` | example/state_machine/robot_controller.hpp:74-83 | runs start in STAND with the ratio 0.1 and the command kp 0, kd 2 in the initial pose |
| `ControlRuns.CommandKinds` | example/state_machine/robot_controller.hpp:187-210 | every command of every run is damping (initial pose, kp 0, kd 2), a scaled stand whose gains are 40 and 1 times the ratio, or that step's user targets with the configured gains, the last only with a ratio above 0.95 |
| `ControlRuns.EmergencyStop` | example/state_machine/robot_controller.hpp:173-196 | with L2 and B held, that same step commands the initial pose with kp 0 and kd 2, in every state and whatever else is pressed |
| `ControlRuns.AfterFall` | example/state_machine/robot_controller.hpp:197-204 | after a fall in CTRL the next command has stiffness at most 0.2 in the initial pose, for every input and every user controller |
| `ControlRuns.RampBound` | example/state_machine/state_machine.hpp:52-66 | over any stretch of any run the ratio rises by at most 0.005 per STAND step with R2 held |
| `ControlRuns.RampRate` | example/state_machine/robot_controller.hpp:279-294 | consecutive STAND commands change each stiffness by at most 0.2 |
| `ControlRuns.ReenterCtrl` | example/state_machine/robot_controller.hpp:159-172 | from any stop back to CTRL there is an R2 rising edge, then STAND throughout with at least 191 steps with R2 held, then an A rising edge |
| `ControlRuns.RampReaches` | example/state_machine/state_machine.hpp:52-66 | holding R2 from a stop gives a run whose ratio after n steps is n * 0.005 |
| `ControlRuns.ShortestReentry` | example/state_machine/robot_controller.hpp:159-172 | the bound 191 is reached: there is a run that re-enters CTRL after 191 such steps and one more |
| `Gravity.ProjectedIsInverseRotation` | example/state_machine/robot_interface.hpp:59-81 | the formula is the quaternion product q* (0, 0, 0, -1) q, for every quaternion |
| `Gravity.ProjectedLength` | example/state_machine/robot_interface.hpp:59-81 | its squared length is the fourth power of the norm |
| `Gravity.FallenIff` | example/state_machine/robot_controller.hpp:310-317 | the fall check fires if and only if qx^2 + qy^2 > qw^2 + qz^2 |
| `CommandThreads.EveryInterleaving` | example/state_machine/robot_controller.hpp:124-147 | in every interleaving the shared command and the sensor values are whole except inside the critical section that is writing them, where exactly a prefix is new |
| `CommandThreads.PublishedWhole` | example/state_machine/robot_controller.hpp:140-147 | every published command is, whole, the newest one completed when the writer took the mutex, built from the settings of one step of one controller run; its checksum test gives zero if and only if it is not the default one |
| `CommandSchedules.DefaultPublished` | example/state_machine/robot_controller.hpp:149-152 | the interleaving that publishes the default command, from every start |
| `CommandThreads.PublishedSafe` | example/state_machine/robot_controller.hpp:206-210 | nothing is ever published but the default command, damping (kp 0, kd 2), the initial pose with gains 40 and 1 times some ratio in [0, 1], and the targets that the user controller calculated in that very step with the configured gains, the last only above 0.95; if that step sampled L2 and B it is exactly damping, and if the gravity that the fall check of the step before read points up it is the initial pose with stiffness at most 0.2 |
| `CommandThreads.InputsGiven` | example/state_machine/robot_controller.hpp:187-204 | in every interleaving each step acts on the keys it sampled and the targets calculated in it; it makes a fall check if and only if it is in CTRL, and takes a fall if and only if the gravity word that the check read, from a message of the callback, points up |
| `CommandThreads.DecideInCtrl` | example/state_machine/robot_controller.hpp:197-204 | in CTRL the fall check leads to DAMPING if and only if the gravity word it reads is positive |
| `CommandThreads.ReadWhole` | example/state_machine/robot_controller.hpp:298-301 | whatever words the user controller reads under the mutex, in any order, all are from the newest message complete when the mutex was taken |
| `CommandThreads.FallCheckNotOlder` | example/state_machine/robot_controller.hpp:199-203 | the fall check sees the gravity of a message not older than the one given to the user controller in that step |
| `CommandThreads.FallCheckSame` | example/state_machine/robot_controller.hpp:199-203 | it is the same message if and only if the callback has not stored the gravity word again by then |
| `CommandThreads.ResetWhole` | example/state_machine/robot_controller.hpp:259-261 | in the reset on entering CTRL, which reads without the mutex, each word is from the message told by the number of words stored so far, and all are from one message if and only if at every word read the callback has stored it with the first word's message and not yet with the next |
| `CommandThreads.ResetSettled` | example/state_machine/user_controller.hpp:61-82 | if the callback is between messages at the first word, all are from one message if and only if no word is stored again before it is read |
| `CommandThreads.ResetQuiet` | example/state_machine/user_controller.hpp:61-82 | if nothing is stored meanwhile, all are from one message if and only if the callback does not stand between two of the words read |
| `CommandSchedules.StandStep` | example/state_machine/robot_controller.hpp:179-210 | a control step is carried out by an interleaving of single accesses, and leaves the specified state |
| `CommandSchedules.Ramp` | example/state_machine/robot_controller.hpp:279-294 | from the start of the controller, n such steps with R2 held lead to the ratio 0.1 + 0.005 n |
| `CommandSchedules.ResetTorn` | example/state_machine/robot_controller.hpp:259-261 | for any two words, the interleaving from the start of the controller in which a reset reads them from two messages |
| `CommandSchedules.ResetOvertaken` | example/state_machine/robot_controller.hpp:259-261 | the one in which the callback stores meanwhile and the read is still whole |
| `CommandSchedules.FallCheckNewer` | example/state_machine/robot_controller.hpp:199-203 | the one in which the fall check sees a newer message than the user controller was given, still being stored |
| `Bytes.ChunksAreFull` | example/go2/typego_livox_full_service.cpp:204-207 | cutting into pieces loses nothing, and all pieces but the last are full |
| `Bytes.FullIsChunks` | example/go2/typego_livox_full_service.cpp:204-207 | there is no other way to cut so |
| `Bytes.SplitFlatten` | example/go2/typego_livox_full_service.cpp:219-227 | records laid out one after the other are found again |
| `LidarFilter.EncodeRoundTrip` | example/go2/typego_livox_service.cpp:86-103 | the sequence number and the points of a datagram are read back from it |
| `LidarFilter.DatagramLayout` | example/go2/typego_livox_service.cpp:84-103 | the sequence number is the first two bytes, low byte first, and point k the six bytes from 2 + 6k |
| `LidarFilter.PointLayout` | example/go2/typego_livox_service.cpp:100-102 | of which two are x, two y and two z, low byte first |
| `LidarFilter.FilterService.AddPoint` | example/go2/typego_livox_service.cpp:93-104 | one more point is in the packets, after a hand-over exactly when the packet was full |
| `LidarFilter.FilterService.PointCloudCallback` | example/go2/typego_livox_service.cpp:79-111 | the loop over the buffer hands over exactly the datagrams of the filtered points cut into 85s |
| `LidarFilter.RunDelivers` | example/go2/typego_livox_service.cpp:79-111 | everything a thread ever handed over, decoded, are the raw points at an increasing list of positions, each coordinate the 16-bit value of the raw one, and those positions are exactly the ones whose 16-bit z is one of -79, ..., 79 |
| `LidarFilter.RunNumbered` | example/go2/typego_livox_service.cpp:79-111 | the j-th datagram carries j modulo 65536, has 1 to 85 points and 2 + 6k bytes, at most 512 |
| `LidarFilter.CallbackPackets` | example/go2/typego_livox_service.cpp:89-110 | one callback emits the number of points divided by 85, rounded up, and all but the last are 512 bytes |
| `LidarFull.FrameRoundTrip` | example/go2/typego_livox_full_service.cpp:122-154 | a receiver gets every header field and every record of a packet back |
| `LidarFull.HeaderLayout` | example/go2/typego_livox_full_service.cpp:209-217 | the six header fields at their byte offsets, in network order |
| `LidarFull.RecordLayout` | example/go2/typego_livox_full_service.cpp:217-231 | the record count is the two bytes from 16, and record k stands at 18 + k times its size, up to the end |
| `LidarFull.TimestampRecombines` | example/go2/typego_livox_full_service.cpp:197-198 | the two fields recombine to the timestamp if and only if it is below 2^32 * 10^9 |
| `LidarFull.FullService.SendAll` | example/go2/typego_livox_full_service.cpp:200-235 | the loop hands over exactly the packets of the pieces and leaves the counter at the last number used |
| `LidarFull.FullService.PointCloudCallback` | example/go2/typego_livox_full_service.cpp:174-235 | nothing without data, without a client or for another data type, else the packets of the truncated points in pieces of 242 |
| `LidarFull.FullService.ImuDataCallback` | example/go2/typego_livox_full_service.cpp:238-299 | nothing without data or without a client, else the packets of the samples in pieces of 60, on a counter of its own |
| `LidarFull.PacketsDeliver` | example/go2/typego_livox_full_service.cpp:200-235 | for every number of records, each packet parses, is at most 1472 bytes, is numbered consecutively and carries the callback's tags, and together they carry every record once and in order |
| `LidarFull.PointsDelivered` | example/go2/typego_livox_full_service.cpp:182-235 | n points make ceil(n / 242) such packets, from which n points come back in order, each coordinate the 16-bit value of the raw one |
| `LidarFull.SamplesDelivered` | example/go2/typego_livox_full_service.cpp:243-298 | n samples make ceil(n / 60) such packets, from which every sample comes back in order |
| `LidarFull.StreamDelivers` | example/go2/typego_livox_full_service.cpp:188-235 | the same over all callbacks of one kind, with numbers from 1 that wrap at 2^16 |
| `LidarFull.MixedStreams` | example/go2/typego_livox_full_service.cpp:174-299 | for any mixture of point and IMU callbacks and a client that speaks at any time, the datagrams of each kind are the stream of that kind's callbacks since then |
| `LidarFull.MixedDelivers` | example/go2/typego_livox_full_service.cpp:174-299 | so each kind is numbered without gaps and carries every record of its kind once and in order, whatever the other does |
| `LogCounter.CountsConserved` | example/go2/typego_livox_full_service.cpp:157-172 | for any number of threads and any interleaving, spurious exchange failures included, the reported counts plus the counter are the callbacks started (exactly below 2^64, modulo 2^64 always) |
| `LogCounter.ReportsSpaced` | example/go2/typego_livox_full_service.cpp:162-170 | the log times of any two reports are at least 1000 ms apart |
| `LogCounter.ReportMade` | example/go2/typego_livox_full_service.cpp:157-172 | after any interleaving, a callback that no other thread disturbs counts itself and then, if and only if 10^9 ns have passed since the last log time, reports the whole count and starts over |
| `KeyValueWalk.EntryAt` | example/go2/typego_livox_full_service.cpp:321-335 | at the offset of each entry the code finds that entry, and the next offset is the next entry's |
| `KeyValueWalk.EntryLayout` | example/go2/typego_livox_full_service.cpp:321-335 | an entry byte by byte: key, length, value, low bytes first |
| `KeyValueWalk.EndpointLayout` | example/go2/typego_livox_service.cpp:136-143 | of a matched value the address is the first four bytes, the host port the next two and the lidar port the two after, low bytes first |
| `KeyValueWalk.Walk` | example/go2/typego_livox_service.cpp:125-147 | from the bytes of any well-formed list the loop returns, for each of the two keys, the address and ports of its last entry, or zeros |
| `StateForwarder.EveryInterleaving` | example/go2/typego_high_state_service.cpp:28-101 | the client address is whole outside the receiver's critical section, in every interleaving |
| `StateForwarder.SentToNewestClient` | example/go2/typego_high_state_service.cpp:28-90 | every state goes to an address and length stored whole by one receive of the run, the newest when the mutex was taken; none goes out before a client has spoken |
| `StateForwarder.SentSpaced` | example/go2/typego_high_state_service.cpp:92-101 | any two forwarded states are at least 20 ms apart |
| `StateForwarder.SentIsMessage` | example/go2/typego_high_state_service.cpp:84-122 | every forwarded state is, time and data, a state message of the run, and none is forwarded twice |
| `StateForwarder.ForwardMade` | example/go2/typego_high_state_service.cpp:84-122 | after any interleaving that leaves the handler at rest, the mutex free and a client known, an undisturbed state message is forwarded whole to the newest client if and only if 20 ms have passed since the last turn |
| `StandSequencer.NextPercent` | example/go2/go2_stand_example.cpp:257-310 | the closed form satisfies the tick of the chain: a phase is bumped exactly when the one before is complete after this tick |
| `StandSequencer.PhasesInOrder` | example/go2/go2_stand_example.cpp:270-300 | a phase has progress if and only if the one before it is complete, and then all earlier ones are |
| `StandSequencer.CompletionTick` | example/go2/go2_stand_example.cpp:257-310 | the last of n phases is complete from tick d1 + ... + dn - (n - 1) on, and not before |
| `StandSequencer.PoseInHull` | example/go2/go2_stand_example.cpp:259-310 | every commanded joint lies between the endpoints of the active phase |
| `StandSequencer.HoldsTarget` | example/go2/go2_stand_example.cpp:299-310 | from the completion tick on the last pose is commanded |
| `StandSequencer.PoseContinuous` | example/go2/go2_stand_example.cpp:259-310 | consecutive commands differ per joint by at most the per-tick steps of two adjacent phases, for all durations of at least 2 |
| `StandSequencer.WheelTicks` | example/go2w/go2w_stand_example.cpp:286-323 | of the d ticks of the phase, those below 2d/5 command 3.0, those up to 4d/5 command -3.0 and the rest zero |
| `StandSequencer.WheelBalance` | example/go2w/go2w_stand_example.cpp:286-323 | backward ticks minus forward ticks is 0 or 1, and which one, for every duration |
| `StandExamples.FirstBlock` | example/go2/go2_stand_example.cpp:257-268 | the first block's accumulator and command are those of the closed form |
| `StandExamples.LaterBlock` | example/go2/go2_stand_example.cpp:270-310 | so are a later block's, whether or not it has its turn |
| `StandExamples.Go2Pose` | example/go2/go2_stand_example.cpp:257-310 | the pose of every active tick: as many parts of the way from the measured pose to the first target as ticks have passed, then to the second, held, to the third, and held for ever, with the tick at which each begins |
| `StandExamples.B2Pose` | example/b2/b2_stand_example.cpp:249-318 | the same with a fourth target |
| `StandExamples.Go2Stand.ActiveTick` | example/go2w/go2w_stand_example.cpp:244-338 | one active tick advances accumulators, leg command and wheel command to the closed form of the next tick |
| `StandExamples.Go2Stand.LowCmdWrite` | example/go2/go2_stand_example.cpp:245-315 | calls from the 500th on publish, with the pose of that tick, zero velocity and torque and the configured gains; the pose measured in the 500th call is where the motion starts |
| `StandExamples.Go2Stand.WheelIs` | example/go2w/go2w_stand_example.cpp:286-323 | the wheels are commanded with zero stiffness, the configured damping and the speed of the tick from the end of the second phase on, and keep the stop values before |
| `StandExamples.B2Stand.ActiveTick` | example/b2/b2_stand_example.cpp:249-318 | the same with five phases |
| `StandExamples.B2Stand.LowCmdWrite` | example/b2/b2_stand_example.cpp:237-323 | the same with five phases |
| `StandExamples.ShippedDurations` | example/b2/b2_stand_example.cpp:74-78 | with the durations in the code the last phase completes at active tick 2897 (Go2), 3897 (Go2-W) and 3996 (B2) |
| `Pid.Pid.Update` | example/go2/typego_control_interface.cpp:91-118 | the in-place update is the specified step of the memory and its output, inside the output limit |
| `Pid.RunBounded` | example/go2/typego_control_interface.cpp:91-118 | for every error history the integral stays inside its limit, the filtered derivative never exceeds the largest raw one so far, and the output stays inside its limit |
| `Pid.AnswerIs` | example/go2/typego_control_interface.cpp:91-118 | for every error history the answer is kp times the error plus kd times the filtered derivative plus ki times the integral, held inside the limit |
| `Pid.IntegralIsSum` | example/go2/typego_control_interface.cpp:106-109 | the integral is the sum of the errors divided by the rate, as long as that never exceeds the limit |
| `Pid.PlainDerivative` | example/go2/typego_control_interface.cpp:94-102 | without a cutoff the derivative is the last difference of the errors times the rate |
| `Pid.FilteredDerivative` | example/go2/typego_control_interface.cpp:97-100 | with one it closes the part dt / (tau + dt) of its distance to that |
| `Pid.Proportional` | example/go2/typego_control_interface.cpp:91-118 | with ki = kd = 0 the answer is kp times the error, held inside the limit, whatever is remembered |
| `Pid.PointsTheSameWay` | example/go2/typego_control_interface.cpp:91-118 | so with a positive gain it has the sign of the error |
| `RemoteControl.UnwrapExact` | example/go2/typego_control_interface.cpp:251-259 | one unwrapped yaw difference is the true turn if and only if that is less than half a turn, or is a half turn that the readings do not wrap |
| `RemoteControl.AccumulatedIsTrue` | example/go2/typego_control_interface.cpp:239-262 | after any number of passes and turns the accumulated angle is the true heading change |
| `RemoteControl.Rotate` | example/go2/typego_control_interface.cpp:233-279 | what every pass commands and when the loop ends: each pass answers the remaining angle with the controller's output, SUCCESS, cancellation and TIMEOUT happen exactly when their test first holds, in the order of the code |
| `RemoteControl.SuccessMeansTurned` | example/go2/typego_control_interface.cpp:264-270 | SUCCESS means that the robot turned within 0.01 rad of the request |
| `RemoteControl.RemainingIsTrue` | example/go2/typego_control_interface.cpp:261-265 | the remaining angle of every pass is the request minus the true heading change |
| `RemoteControl.TurnsTowards` | example/go2/typego_control_interface.cpp:264-273 | with the gains of the code every command turns towards the requested heading: ten times the true angle to go, at most 2 |
| `RemoteControl.FramesInvert` | example/go2/typego_control_interface.cpp:308-313 | forward is (c, s) in the world and left is (-s, c); the two frame changes undo each other and keep lengths |
| `RemoteControl.TargetIs` | example/go2/typego_control_interface.cpp:305-318 | the target is the start plus the request, turned by the heading at the start in the body frame, where the robot at the start sees it at exactly the request |
| `RemoteControl.Turned` | example/go2/typego_control_interface.cpp:348-350 | a velocity clamped to [-1, 1] per world axis has a squared length of at most 2 in the body frame, and is that velocity in the world frame |
| `RemoteControl.Steer` | example/go2/typego_control_interface.cpp:344-359 | the velocity of one pass is, in the world frame, the two position controllers' answers, and it is slow |
| `RemoteControl.Move` | example/go2/typego_control_interface.cpp:297-365 | what every pass commands and when the loop ends, every command with vx^2 + vy^2 at most 2; SUCCESS means within 0.05 of the target on both axes |
| `RemoteControl.DrivesTowards` | example/go2/typego_control_interface.cpp:344-359 | with the gains of the code every command drives towards the target on both world axes (twice the distance to go, at most 1), has a positive part along the way to it, and turns back to the heading of the start |
| `SocketStreambuf.Streambuf.SendLoop` | include/asio/basic_socket_streambuf.hpp:358-391 | for every socket behaviour, exactly the prefix the socket took before the loop ended has been sent, and the loop succeeds if and only if that is all |
| `SocketStreambuf.Streambuf.Overflow` | include/asio/basic_socket_streambuf.hpp:337-409 | the buffer does what the byte queue does, in success and in failure |
| `SocketStreambuf.Streambuf.Put` | include/asio/basic_socket_streambuf.hpp:337-409 | so does writing one character |
| `SocketStreambuf.Streambuf.Sync` | include/asio/basic_socket_streambuf.hpp:411-414 | so does a flush |
| `SocketStreambuf.Streambuf.SetUnbuffered` | include/asio/basic_socket_streambuf.hpp:416-427 | the mode changes if and only if nothing is pending |
| `SocketStreambuf.Streambuf.Underflow` | include/asio/basic_socket_streambuf.hpp:283-335 | an empty get area is refilled with the first data that arrives, at most 504 bytes; otherwise nothing changes |
| `SocketStreambuf.Streambuf.Get` | include/asio/basic_socket_streambuf.hpp:283-335 | reading one character is reading one from the queue |
| `SocketStreambuf.OverflowOutput` | include/asio/basic_socket_streambuf.hpp:337-409 | a successful overflow adds its character; a failed one leaves the output unchanged if and only if the socket had taken nothing |
| `SocketStreambuf.FlushedTwice` | include/asio/basic_socket_streambuf.hpp:358-391 | a flush that fails after k bytes, followed by one that succeeds, sends the first k bytes and then all of them |
| `SocketStreambuf.DuplicateByte` | include/asio/basic_socket_streambuf.hpp:358-391 | with two bytes waiting, the first arrives twice |
| `SocketStreambuf.RunOutput` | include/asio/basic_socket_streambuf.hpp:337-427 | on any run of writes, flushes and mode changes without failure, bytes sent followed by the put area are the characters written, and after a flush all of them are sent |
| `SocketStreambuf.SendCompletes` | include/asio/basic_socket_streambuf.hpp:358-391 | without expiry or failure, everything is sent once the socket has accepted as often as there are bytes, however small the pieces |
| `SocketStreambuf.SendIsSum` | include/asio/basic_socket_streambuf.hpp:358-391 | what a socket that does not fail takes is the sum of what it accepts, up to all |
| `SocketStreambuf.SendStops` | include/asio/basic_socket_streambuf.hpp:358-391 | the first expiry, failure or failed wait ends the loop |
| `SocketStreambuf.WriteIs` | include/asio/basic_socket_streambuf.hpp:337-409 | a write waits until 512 bytes do; the next one sends them and waits alone; unbuffered, it is sent at once |
| `SocketStreambuf.FirstDataIs` | include/asio/basic_socket_streambuf.hpp:283-335 | exactly the successful waits at the front are retried; then the data that arrives is received, at most 504 bytes, and anything else gives nothing |
| `SocketStreambuf.DeliveredIsRead` | include/asio/basic_socket_streambuf.hpp:283-335 | data that arrives for an empty get area is read character by character in as many reads, whatever the socket does meanwhile |
| `SocketStreambuf.ReadsInOrder` | include/asio/basic_socket_streambuf.hpp:283-335 | the characters read are the received bytes in order, and end-of-file is returned only with nothing left |
| `CompletionHandler.Wrappers.MoveTo` | include/asio/any_completion_handler.hpp:683-689 | through the temporary: the old content is freed and the new one moved in; self-move changes nothing and frees nothing |
| `CompletionHandler.Wrappers.Call` | include/asio/any_completion_handler.hpp:745-756 | an empty wrapper throws; otherwise the object is freed, then invoked |
| `CompletionHandler.AfterInv` | include/asio/any_completion_handler.hpp:639-756 | every operation keeps: one owner per object, the table of its own type, no leak, freed at most once, invoked at most once and after being freed |
| `CompletionHandler.OwnersAfter` | include/asio/any_completion_handler.hpp:639-756 | who owns which object after every operation: moves hand over, a swap exchanges, a call, a clear and a destruction leave nothing |
| `CompletionHandler.EffectsAfter` | include/asio/any_completion_handler.hpp:639-756 | which object every operation frees, through its own table, and which handler it invokes: exactly the called one |
| `CompletionHandler.CallInvokes` | include/asio/any_completion_handler.hpp:745-756 | after any sequence of operations, calling a wrapper that owns a handler frees and then invokes exactly that one; calling an empty one changes nothing |
| `CompletionHandler.FreedExactlyOnce` | include/asio/any_completion_handler.hpp:639-756 | after any sequence of operations an object has been freed exactly once if and only if nobody owns it; when no wrapper is left, every object ever made has been freed exactly once |
| `CompletionHandler.InvokedAfterFree` | include/asio/any_completion_handler.hpp:178-191 | after any sequence of operations no handler was invoked twice, and each only after its storage was given back |
| `CompletionHandler.AgreeKept` | include/asio/any_completion_handler.hpp:745-756 | an operation keeps the two pointers of every wrapper null together if and only if it is not the call of a wrapper that owns something |
| `AlignedBlock.ShiftAligns` | include/asio/detail/memory.hpp:54-58 | the rounding gives the least aligned address not below the base |
| `AlignedBlock.Memory.Allocate` | include/asio/any_completion_handler.hpp:131-156 | for every size and alignment a block of size + align - 1 + 8 bytes is taken, the object is at its least aligned address, it and the eight bytes of the stored distance lie inside the block, and the heap changes as specified and no further |
| `AlignedBlock.Memory.Deallocate` | include/asio/any_completion_handler.hpp:158-176 | the base and the length given back are those the block was taken with; a null pointer is ignored |
| `AlignedBlock.AfterValid` | include/asio/any_completion_handler.hpp:131-176 | allocating, using or giving back one object keeps the stored distance of every live object intact, and the blocks apart and accounted for |
| `AlignedBlock.EveryBlockRecovered` | include/asio/any_completion_handler.hpp:131-176 | after any sequence of allocations, uses and deallocations, of any sizes and alignments, giving back any live object recovers exactly its block, and when no object is left no block is |
| `AlignedBlock.OthersUntouched` | include/asio/any_completion_handler.hpp:131-176 | no operation on one object changes a byte of another |

## Left out

- Float rounding: all floating-point values are reals, so tick counts and ramp lengths are those of exact arithmetic; `sin` and `cos` appear only through c^2 + s^2 = 1.
- The bit pattern of a float in a command is a parameter of `LowCommand`, and the padding of the command structure (after the bandwidth, after each motor's mode and after the GPIO byte) is taken as zero; the language leaves it unspecified, and the checksum covers it.
- Sockets, DDS channels, clocks and the user controller: what they deliver is an arbitrary input, what is sent is appended to a trace; a loop that waits on them reads a finite script. The user controller may read any sensor words in any order and calculate anything, but is assumed not to write the robot interface.
- The raw state message from which the control thread samples the gamepad is written by the callback without a mutex; the model takes each sample of the five buttons as one whole input.
- RobotController.Gamepad.Update: does not model the stick smoothing and the eleven buttons that the controller does not read.
- Timing statistics, logging, printing and configuration loading.
- `lowCmd2Dds` and the packed command structure, which nothing calls.
- LidarFull.FullService.PointCloudCallback: low-resolution packets are not modelled, because they are accepted but read with the high-resolution layout.
- LidarFilter.FilterService.PointCloudCallback: the trace is what is handed to `sendtoClient`, which drops it while no client is known; client address switching in the two lidar services is not synchronised and not modelled.
- KeyValueWalk.Walk: the list is assumed well-formed (matched values of at least eight bytes, at most 255 entries, offsets within 16 bits), as the code does without checking; the two key constants are parameters because the lidar SDK header is not part of this model.
- LogCounter and StateForwarder: the state callback of the forwarder runs on one thread, as its channel does, and the bytes it makes of a state message are taken as they are; which thirteen numbers they hold is not modelled.
- StandSequencer.PoseContinuous: stated for durations of at least 2; with a duration of 1 several phases can complete in one tick.
- StandExamples.Go2Stand.LowCmdWrite: the checksum and the words of the remaining motors are those of `LowCommand` and `Crc32` and are not repeated; the blocks of a tick are methods of their own.
- RemoteControl.Move: heading is not claimed to converge, because the yaw error is not unwrapped.
- SocketStreambuf.Streambuf.Overflow: the error code kept by the buffer is computed but not specified; moving a buffer with pending output, putback and closing are not modelled.
- CompletionHandler.Wrappers.Make: constructors and allocators that throw, cancellation slots and executors are not modelled; neither is a handler that uses its own wrapper while it is being invoked.
- AlignedBlock.Memory.Allocate: sizes are unbounded, so a request whose enlarged length exceeds the address range is not modelled.
- WAV playback, the camera and web interfaces, sport-client menus, `b2w_stand_example.cpp` (the Go2-W shape again) and the rest of asio: they add input and output or easy members only.
