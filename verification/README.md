# Logitech wheel driver and TrueForce library: a verified model

Dafny models of six parts of the Linux driver and user-space stack for Logitech
direct-drive and G923 wheels, with proofs of what they keep over every run.
`dafny verify dfyconfig.toml` checks the whole project.

**TrueForce stream session** (`SampleRing`, `TfPackets`, `TfTick`, `TfDevice`,
`TfSession`, `TfAudio`, `TfRuns`, `TfStarved`). `SampleRing.Ring` is the 4096-slot array with
wrapping 32-bit indices, proved against a bounded drop-oldest queue.
`TfDevice.Device` is the stream half of the device structure, updated in place, each
method proved against the value functions of `TfTick`. `TfSession` is the same code cut
at its critical sections and interleaved: a stream thread, one control thread (pause,
resume, clear, stop, close), and producers that may start the session or push at any
moment. `TfAudio`, `TfRuns` and `TfStarved` hold the invariants and the theorems about
whole runs.

**Telemetry hub** (`RelayHub`, `RelayRuns`). Any number of processes, their sockets and
queues; start, bind attempts, arrival, receipt, promotion, forwarding and exit
interleave freely.

**Classic G923 effect engine** (`Lg4ffSlots`, `Lg4ffStates`, `Lg4ffEngine`,
`Lg4ffRuns`). The command packer byte by byte, an abstract wheel that obeys commands,
the engine on its own arrays with the early-exit loop, and runs of uploads, playback
calls and timer callbacks.

**Direct-drive fixed point** (`AccelFilter`, `AccelRamps`, `EffectShapes`, `TexturePacer`,
`TextureMerge`, `TextureSplice`, `TextureSound`). The acceleration filter, condition forces
and envelopes, and the engine-texture merge: pacer, phase-locked synthesis, splicing, and
what it sounds like in terms of engine speed and intensity.

**DirectInput proxy** (`PidReports`, `FfEffects`, `FfSink`, `FfMirror`, `FfPlays`,
`FfProxy`). The report decoder with the host's encoder, kernel effects as bytes, the sink
against readings of its log (last writer, last start or stop, last gain), and the poll loop
interleaved with its worker.

**Airborne gate** (`AirborneGate`). The wheel-load history behind one boolean.

`Words` holds machine words and arithmetic shared by all of them.

## Where the code and its own comments part

Each of these is stated with its exact condition and a concrete run or input.

- A follower of the telemetry hub that has a forwarded copy in hand when it is promoted
  forwards that copy again (tools/logi-rpm-bridge.c:359-384), so another reader can
  consume one datagram twice, although forwarding is meant to go from the relay port to
  the fan-out ports only and closing the old socket is meant to see to it (lines
  291-295). The datagrams forwarded again are exactly those in hand at a promotion; all
  others reach every reader at most once. Run: `RelayRuns.CopyConsumedTwice`.
- The early return of a repeated Pause takes the standby flag to be stable while paused
  (userspace/libtrueforce/src/exports.c:686-708). A tick that sampled the flags before
  the first Pause can still clear it: the early return is quiet exactly when no tick is
  under way that can still put a packet on the wire, that is none that began un-paused
  except one that has already drained nothing but silence. Run:
  `TfRuns.EarlyReturnCanBeLoud`.
- A clear that lands between a tick's window update and its packet turns the packet's
  newest slots into centre values (userspace/libtrueforce/src/stream.c:209-226, 452-545).
  Run: `TfRuns.ClearCanWipeAPacket`.
- The sequence byte after 255 is 0, except that a stream run which begins there begins
  with 69 (userspace/libtrueforce/src/stream.c:772-780): that is the only step that is
  not consecutive. Run: `TfStarved.RestartCanJump`.
- A steady acceleration is meant to be read back exactly
  (mainline/hidpp_dd_effect_math.h:187-196). Whole-count velocities, the driver's tick of
  1 ms and its time constant of 50 ms (mainline/hid-logitech-hidpp.c:6742, 6848) do so
  from some tick on exactly when the acceleration is zero or the tracker lags the
  velocity, in the direction of the acceleration, by less than 12800 times the
  acceleration plus 50, in 1/256 counts; otherwise 1/256 too much is read for ever. A
  tracker that starts on the velocity always lags little enough. Input:
  `AccelRamps.ResetTrackerReadsOneTooMuch`. For other ticks and time constants
  `AccelRamps.SteadyAccelerationReadExactly` has the exact condition.
- A symmetric condition is one count stronger on one side, the left for springs and the
  right for anti-springs, exactly where the product is not a multiple of 0x8000 and its
  quotient does not saturate (mainline/hidpp_dd_effect_math.h:138-180); and the formula
  comment's one-sided clamp (lines 116-122) is two-sided in the code. Inputs:
  `EffectShapes.OneSideIsStronger`.
- A zero magnitude is lifted to the positive side by an attack that starts above zero,
  and by a fade to a level above zero once it has come far enough
  (mainline/hidpp_dd_effect_math.h:52-107). Input: `EffectShapes.ZeroCanBeRaised`.
- A G923 condition effect that runs out by itself keeps its slot, so an engine is reached
  in which nothing runs and a spring that is started plays into no slot
  (mainline/dd-lg4ff.c:761-777, 1001-1032). Run: `Lg4ffRuns.SlotsCanRunOut`.
- An update of a started G923 effect stops it one length after the update, delay
  included, so it plays for the length less the delay and not at all if the delay is as
  long, where a fresh start plays for the whole length; an update that the expiring tick
  finds pending is forgotten (mainline/dd-lg4ff.c:631-637, 763-771).
  Input: `Lg4ffRuns.UpdateCanSilence`.
- Block numbers of the DirectInput proxy wrap: among the first 256 creations since a
  reset none finds its block in use, the 257th can
  (userspace/logi-wheel/crates/logi-ffb/src/proxy.rs:149-159). Run:
  `FfProxy.CreationCanReachALiveBlock`.

## Model

| member | source | states |
|---|---|---|
| SampleRing.MaskSurvivesWrap | userspace/libtrueforce/src/stream.c:90-93 | masking by 4096 is unaffected by the 32-bit wrap of an index |
| SampleRing.Ring.Queue | userspace/libtrueforce/src/stream.c:90-93 | the abstract queue: as many samples as the index distance says, each from its own masked slot |
| SampleRing.Ring.Put | userspace/libtrueforce/src/stream.c:193-197 | one sample appended to the queue, nothing else disturbed |
| SampleRing.Ring.Skip | userspace/libtrueforce/src/stream.c:198-204 | the oldest samples leave, the rest stay in order |
| SampleRing.Ring.Push | userspace/libtrueforce/src/stream.c:154-207 | the queue becomes the newest 512 of old queue plus pushed samples in offset binary; the drop counter grows by exactly what is missing |
| SampleRing.Ring.Clear | userspace/libtrueforce/src/stream.c:209-214 | the queue is empty afterwards |
| SampleRing.Ring.Drain | userspace/libtrueforce/src/stream.c:437-450 | the oldest samples up to the budget come out in order and are gone from the queue |
| SampleRing.Ring.ResetDropped | userspace/libtrueforce/src/stream.c:765-770 | a stream start zeroes the drop report and touches nothing else |
| SampleRing.Ring.Do | userspace/libtrueforce/src/stream.c:154-214 | each call on the ring books exactly its own entry in the accounts |
| SampleRing.Perform | userspace/libtrueforce/src/stream.c:154-214 | any operations on a ring leave it where the accounts of the run say, and the accounts balance |
| SampleRing.NothingIsLostUncounted | userspace/libtrueforce/src/stream.c:154-214 | over every run, stream starts included, pushed = drained + dropped + cleared + queued, and the queue is the newest part of what arrived |
| SampleRing.EmptyRunIsBalanced | userspace/libtrueforce/src/stream.c:154-214 | in particular from an empty ring |
| SampleRing.QueuedSamplesLeaveWithin128Ticks | userspace/libtrueforce/src/internal.h:89-93 | 128 ticks empty the ring of everything queued now, whatever is pushed or cleared meanwhile |
| SampleRing.PushDropsOnlyTheOverflow | userspace/libtrueforce/src/stream.c:154-207 | a push drops oldest samples and only as many as do not fit in 512; the newest of all that arrived stay, in order |
| TfPackets.EncodingIsFaithful | userspace/libtrueforce/src/stream.c:235-298 | every packet of the session is recovered from its 64 bytes, so no two share a wire image |
| TfPackets.WireLayout | userspace/libtrueforce/src/stream.c:235-298 | byte for byte: report id 1, type, sequence byte, each force and each window slot low byte first and twice, the constant 0x0d, zeros elsewhere |
| TfPackets.BuildStreamPacket | userspace/libtrueforce/src/stream.c:235-269 | the buffer holds the wire image of a stream packet with this count and window |
| TfPackets.BuildIdlePacket | userspace/libtrueforce/src/stream.c:278-289 | the buffer holds the wire image of the keepalive |
| TfPackets.BuildCtrlPacket | userspace/libtrueforce/src/stream.c:292-298 | the buffer holds the wire image of a control packet |
| TfDevice.Device.SendStopPair | userspace/libtrueforce/src/stream.c:323-358 | outside standby 0x04 then 0x03 with consecutive sequence bytes, nothing in standby; standby afterwards |
| TfDevice.Device.ShiftIn | userspace/libtrueforce/src/stream.c:462-468 | the window shifts left by the block's length and ends in the block |
| TfDevice.Device.AbsorbBlock | userspace/libtrueforce/src/stream.c:452-501 | window, held force and starvation counter after a block or after none: hold eight ticks, then flush and decay |
| TfDevice.Device.IsSilent | userspace/libtrueforce/src/stream.c:364-372 | true exactly when every sample is centre |
| TfDevice.Device.RespondTo | userspace/libtrueforce/src/stream.c:503-554 | exactly one of nothing, a keepalive, a teardown pair or a stream packet, on the flags sampled at the tick's start |
| TfDevice.Device.TickN | userspace/libtrueforce/src/stream.c:402-554 | the new device state and the packets written are those of the specification tick, on all inputs |
| TfDevice.Device.PushS16 | userspace/libtrueforce/src/stream.c:154-207 | which calls are refused and why; an accepted call queues its samples, a refused one changes nothing |
| TfDevice.Device.StreamClear | userspace/libtrueforce/src/stream.c:209-226 | ring empty, window and held force centred |
| TfTick.TickTakesItsShare | userspace/libtrueforce/src/stream.c:437-501 | a tick takes four samples an expiration, twelve at most and no more than are queued; the force is the newest of them, else held for eight ticks and then 820 nearer to centre a tick; window and hold likewise |
| TfTick.TickWrites | userspace/libtrueforce/src/stream.c:402-554 | from the state it found alone: pair, nothing, stream packet, pair on the 500th silent tick, or keepalive, with its sequence byte, force, window and count, and the standby flag and silence count afterwards |
| TfTick.HeldForceIsTheNewestSample | userspace/libtrueforce/src/stream.c:462-470 | samples drained: the newest is the held force, goes out in the packet as force and as last slot, and has eight ticks of hold ahead |
| TfTick.DecayStep | userspace/libtrueforce/src/stream.c:381-395 | a decay tick takes one step off the distance to centre, any distance takes at most forty, and only centre is at rest |
| TfTick.StarvedTick | userspace/libtrueforce/src/stream.c:471-535 | one starved tick of a live session: towards centre, a keepalive, and one tick nearer the pair, or the pair itself |
| TfTick.StandbyIsSilent | userspace/libtrueforce/src/stream.c:508-510 | in standby a tick that drains nothing or only silence writes nothing and stays in standby |
| TfTick.StarvationEndsInOnePair | userspace/libtrueforce/src/stream.c:471-535 | starved for any number of ticks: keepalives with consecutive sequence bytes, exactly one pair on a tick known beforehand and never later than the 547th, then silence |
| TfTick.StarvationRecentres | userspace/libtrueforce/src/stream.c:471-501 | the held force moves monotonically to centre and is there after forty-eight starved ticks |
| TfSession.StepKeepsProtocol | userspace/libtrueforce/src/exports.c:677-766 | every action of every thread keeps the session invariant: wire grammar, standby flag true exactly on a wire that ends in a pair, locals of a tick in flight in agreement with the shared flags |
| TfAudio.StepKeepsPause | userspace/libtrueforce/src/stream.c:425-505 | every action keeps: one block a tick, muted if and only if the tick found the session paused |
| TfAudio.StepKeepsAudio | userspace/libtrueforce/src/stream.c:437-545 | every action keeps the accounts of drained blocks, window history and declared slots |
| TfAudio.StepKeepsForce | userspace/libtrueforce/src/stream.c:462-545 | every action keeps: with a packet under way the held force is the newest slot of the window, and every stream packet on the wire commands the newest slot of its own |
| TfRuns.WellFormedIsTheGrammar | userspace/libtrueforce/src/stream.c:323-358 | the invariant's local conditions hold of a trace without a dangling 0x04 exactly when it lies in (S or I)* (P S (S or I)*)* P? |
| TfRuns.WireSpeaksTheGrammar | userspace/libtrueforce/src/stream.c:402-554 | in every interleaving the wire is in that grammar, cut inside a pair only while some thread is between its two writes; every closed session ends in a pair |
| TfRuns.StopEndsInPair | userspace/libtrueforce/src/stream.c:815-897 | a completed stop leaves a pair at the end of the wire and adds nothing in standby |
| TfRuns.SequenceBytesAreConsecutive | userspace/libtrueforce/src/stream.c:742-813 | the first sequence byte is 69, and a step is not one more modulo 256 if and only if a stream run begins there after byte 255, and then it is to 69 |
| TfStarved.RestartCanJump | userspace/libtrueforce/src/stream.c:772-780 | a reachable wire on which byte 255 is followed by byte 69 |
| TfRuns.ServicedPauseSilencesTheWire | userspace/libtrueforce/src/exports.c:686-752 | a Pause serviced before it returns leaves a pair last on the wire and nothing follows on any continuation without Resume or Close, whatever tick was in flight |
| TfRuns.RetriedPauseAsksAgain | userspace/libtrueforce/src/exports.c:686-708 | a repeated Pause requests the pair again exactly when it is not last on the wire or is about to stop being so |
| TfRuns.EarlyReturnIsQuietIffMute | userspace/libtrueforce/src/exports.c:686-708 | a Pause that returns early is followed by silence on all continuations if and only if no tick is under way that can still put a packet on the wire: none that began un-paused, save one that has drained only silence |
| TfRuns.EarlyReturnCanBeLoud | userspace/libtrueforce/src/exports.c:686-752 | a reachable state in which the early return is taken and a run without Resume or Close on which a packet still follows |
| TfRuns.StreamPacketsReplayTheDrainedBlocks | userspace/libtrueforce/src/stream.c:235-269 | the window is the newest 13 of everything shifted in; the declared slots of all stream packets put end to end are the un-paused, non-silent blocks in order (a block cleared in flight heard as centre); a block is muted exactly when its own tick sampled the pause flag; counts lie in 1..12 |
| TfRuns.PacketCarriesItsBlockIffNotWiped | userspace/libtrueforce/src/stream.c:506-545 | a stream packet's newest slots are the block just drained if and only if no clear came between |
| TfRuns.StreamPacketsCommandTheirNewestSample | userspace/libtrueforce/src/stream.c:235-269 | in every run each stream packet on the wire commands the sample in its newest slot, and one about to go out commands the last sample of its block, or centre if a clear wiped it |
| TfRuns.ClearCanWipeAPacket | userspace/libtrueforce/src/stream.c:209-226 | a reachable state in which such a clear has come between |
| TfRuns.UninterruptedTickIsTick | userspace/libtrueforce/src/stream.c:402-554 | a tick's actions without interruption add up to the one-call tick: same state, same packets |
| TfRuns.PushLeaves | userspace/libtrueforce/src/stream.c:154-207 | samples are taken while the stream runs and no stop has told it to shut down, and at no other time |
| TfRuns.ClearLeaves | userspace/libtrueforce/src/stream.c:209-226 | an uninterrupted clear empties the ring, centres window and force, and changes nothing else |
| TfRuns.PauseLeaves | userspace/libtrueforce/src/exports.c:686-752 | a pause serviced by the next tick: paused, in standby, with one pair on the wire unless in standby before, ring and window kept |
| TfRuns.SessionStartsFresh | userspace/libtrueforce/src/session.c:128-195 | brought up and started, from any closed state: live, un-paused, centred, nothing requested, byte 69 next, on the ring as it was |
| TfRuns.PauseAndResumeKeepTheStream | userspace/libtrueforce/src/exports.c:686-766 | a pause serviced by the next tick and a resume: one pair written unless in standby before, ring, window and force as they were |
| TfStarved.StarvedSessionEndsInOnePair | userspace/libtrueforce/src/stream.c:402-554 | from every live state between ticks with nothing to play, on every schedule of the stream thread with any expirations, and with producers that start what runs or push nothing: the wire holds what the ticks begun say, one pair by the 547th and no other |
| RelayHub.RelayIn.Open | tools/logi-rpm-bridge.c:234-260 | success exactly when some port in the order relay, fan-out is free behind ports in use, and then on that port; hub exactly on the relay port; never base + 1 |
| RelayHub.FirstFreeIsFirst | tools/logi-rpm-bridge.c:247-260 | the search finds the one free port behind ports in use, and none if there is no such port |
| RelayHub.RelayIn.Promote | tools/logi-rpm-bridge.c:280-300 | success exactly for a follower whose time has come and who gets the relay port; otherwise port and role are kept |
| RelayHub.RelayIn.Forward | tools/logi-rpm-bridge.c:266-276 | a hub sends to the fan-out ports and no others, a follower to none |
| RelayHub.PortsAre | tools/logi-rpm-bridge.c:241-272 | the ports tried are base, base + 2, base + 3, base + 4, and a hub forwards to the last three |
| RelayHub.FailedAttemptWaits | tools/logi-rpm-bridge.c:280-300 | after a failed attempt at t, calls before t + 2 s change nothing even if the port is free by then, and the next from then on takes it exactly when it is free |
| RelayHub.StepKeepsPorts | tools/logi-rpm-bridge.c:234-300 | every step of every process keeps: each reader past start-up has its own bound socket, a hub's is the relay port, a follower's a port the hub forwards to |
| RelayRuns.StepKeepsHops | tools/logi-rpm-bridge.c:359-384 | every step keeps: originals on the relay port and copies on the others, and copies forwarded again are those in hand at a promotion |
| RelayRuns.StepKeepsOnce | tools/logi-rpm-bridge.c:359-384 | every step keeps, for each datagram not in hand at a promotion, that no reader has or will get it twice |
| RelayRuns.HubIsUniqueAndReadersListen | tools/logi-rpm-bridge.c:234-300 | in every run: at most one hub, no two readers on one port, every reader past start-up has the socket it reads, nobody binds base + 1 |
| RelayRuns.ForwardedAgainIffHeldAtPromotion | tools/logi-rpm-bridge.c:359-384 | in every run the copies forwarded a second time are exactly the datagrams in hand at promotions, in order |
| RelayRuns.ConsumedAtMostOnce | tools/logi-rpm-bridge.c:359-384 | in every run no reader consumes a datagram twice, promotions included, unless it was in hand at one |
| RelayRuns.HeldDatagramCanComeAgain | tools/logi-rpm-bridge.c:359-384 | the converse: from any promotion with a datagram in hand every other follower has a continuation on which it consumes that datagram once more than it had or was going to |
| RelayRuns.PromotionSucceedsIffNobodyHolds | tools/logi-rpm-bridge.c:280-300 | a due attempt takes the relay port if and only if no live reader holds it |
| RelayRuns.HubExitFreesThePort | tools/logi-rpm-bridge.c:150-194 | when the holder exits nobody holds the relay port |
| RelayRuns.FirstAttemptWins | tools/logi-rpm-bridge.c:280-300 | whoever bound the relay port is its only holder until it exits, and is the hub once it has closed its old socket |
| RelayRuns.OpenStepsAreOpen | tools/logi-rpm-bridge.c:234-260 | a process's bind attempts in the shared machine add up to the open call |
| RelayRuns.PromoteStepsArePromote | tools/logi-rpm-bridge.c:280-300 | its attempt and the close behind it add up to the promote call |
| RelayRuns.ForwardStepsAreForward | tools/logi-rpm-bridge.c:266-276 | its sends add up to the forward call: one copy on each bound target, nothing elsewhere |
| RelayRuns.CopyConsumedTwice | tools/logi-rpm-bridge.c:359-384 | a reachable state in which one reader has consumed one datagram twice |
| Lg4ffSlots.ForceByteIsOffsetBinary | mainline/dd-lg4ff.c:47-53 | the force byte is the clamped level in offset binary, rising, saturating at both ends, through the unsigned detour |
| Lg4ffSlots.SpringRoundTrip | mainline/dd-lg4ff.c:424-447 | all seven fields of a spring are recovered from its six payload bytes: the bit fields do not overlap |
| Lg4ffSlots.SpringSaysItsParameters | mainline/dd-lg4ff.c:424-447 | read off the six bytes: side 1 says d1 and k1 and nothing else, side 2 d2 and k2: sign, edge in steps of 32 or fully out below 2048, coefficient less 2048 in steps of 2048; the clip in steps of 256 |
| Lg4ffSlots.ResistanceSaysItsParameters | mainline/dd-lg4ff.c:448-466 | the same for dampers and friction: each coefficient and sign at its own place, clip in steps of 256 |
| Lg4ffSlots.ConstantSaysItsLevel | mainline/dd-lg4ff.c:416-423 | the force byte stands at its slot's own place and every other byte is zero |
| Lg4ffSlots.StartsThenUpdates | mainline/dd-lg4ff.c:390-425 | which command is sent, by slot, type, clip and the last operation: a constant starts once and updates ever after, the rest start after a stop, and a stop carries zeros |
| Lg4ffSlots.ElidedIsAsGoodAsSent | mainline/dd-lg4ff.c:373-475 | for one slot, leaving a command unsent when it equals the refreshed last one leaves the wheel as sending it would |
| Lg4ffSlots.SteadySlotIsSilent | mainline/dd-lg4ff.c:470-475 | unchanged parameters send nothing on the next tick, whatever the slot's state |
| Lg4ffSlots.ElisionRefinesSendingAll | mainline/dd-lg4ff.c:830-838 | a tick with elision leaves the wheel as one that sends all four commands |
| Lg4ffSlots.IdleIsNeutral | mainline/dd-lg4ff.c:390-415 | idle parameters bring any wheel to slot 0 at force byte 0x80 and slots 1 to 3 stopped |
| Lg4ffSlots.InitialisationIsNeutral | mainline/dd-lg4ff.c:879-902 | initialisation brings a wheel in any state to rest and in step with the slots |
| Lg4ffSlots.InitialCommandsAre | mainline/dd-lg4ff.c:879-902 | the five commands of the initialisation, byte for byte |
| Lg4ffEngine.Engine.UpdateSlot | mainline/dd-lg4ff.c:373-475 | in place: the slot's new command, operation and changed flag are those of the specification packer |
| Lg4ffEngine.Engine.InitSlots | mainline/dd-lg4ff.c:879-902 | blank states, initial slots, loop mode and all four commands sent |
| Lg4ffEngine.Engine.Upload | mainline/dd-lg4ff.c:928-964 | refused exactly for a periodic effect without period or a type change while started; otherwise stored, and marked when started |
| Lg4ffEngine.Engine.Play | mainline/dd-lg4ff.c:974-1046 | start, restart or stop, with the lowest free condition slot taken or the owned one given back, as specified |
| Lg4ffEngine.EarlyExitIsFullScan | mainline/dd-lg4ff.c:745-759 | once as many started effects were seen as there are, states and parameters are those of a full scan |
| Lg4ffEngine.Engine.Visit | mainline/dd-lg4ff.c:761-777 | one effect's expiry and update, with the use count lowered exactly when it is done |
| Lg4ffEngine.Engine.Refresh | mainline/dd-lg4ff.c:611-663 | times and flags of one effect brought up to now, as specified |
| Lg4ffEngine.Engine.Gather | mainline/dd-lg4ff.c:745-803 | the early-exit loop over the array computes what the full scan of all 16 states computes |
| Lg4ffEngine.Engine.Timer | mainline/dd-lg4ff.c:712-871 | a callback either backs off with nothing changed, or is the specified tick and sends exactly the changed commands; re-armed exactly while effects are in use |
| Lg4ffStates.UploadKeepsValid | mainline/dd-lg4ff.c:928-964 | an upload keeps the engine invariant |
| Lg4ffStates.PlayKeepsValid | mainline/dd-lg4ff.c:974-1046 | a playback call keeps it: use count = started effects, counts at least 1, slots in use have exactly one owner, timer armed while in use |
| Lg4ffStates.TickKeepsValid | mainline/dd-lg4ff.c:712-840 | a tick keeps it |
| Lg4ffStates.GainsNeverAmplify | mainline/dd-lg4ff.c:805-825 | gains and level parameters never amplify a condition and never turn a sign; at full gain coefficients pass unchanged |
| Lg4ffStates.TotalGain | mainline/dd-lg4ff.c:741 | the tick's gain is the product of both gains over 0xffff, rounded down, and either gain itself when the other is full |
| Lg4ffStates.LevelCountsEachPusher | mainline/dd-lg4ff.c:779-789 | raising one effect's level raises the sum by as much exactly if it is started, playing and a constant, ramp or periodic effect, and else not at all |
| Lg4ffStates.ConstantSlotLevel | mainline/dd-lg4ff.c:805-806 | slot 0 is given that sum by the gain, rounded toward zero, and nothing else |
| Lg4ffStates.SlotHoldsItsOwner | mainline/dd-lg4ff.c:790-801 | a condition slot's parameters after a scan are its one owner's: no two effects write the same slot |
| Lg4ffStates.OwnerParameters | mainline/dd-lg4ff.c:790-825 | what a tick gives a slot of its owner: left coefficient as k1, right as k2, both by the gain; a spring's dead-band edges; the saturation by the level of the slot's own type and by the gain |
| Lg4ffStates.TakenSlotKind | mainline/dd-lg4ff.c:1001-1023 | a slot taken is of the effect's own type, except that inertia, and friction where the wheel cannot do it, become dampers |
| Lg4ffRuns.EveryRunIsSound | mainline/dd-lg4ff.c:849-902 | over every run from initialisation: elision goes unnoticed, the invariant holds, and whenever the timer is not armed nothing is in use and the wheel is at rest |
| Lg4ffRuns.NoRestartIsNeutral | mainline/dd-lg4ff.c:849-871 | the callback that does not re-arm has just brought the wheel to rest |
| Lg4ffRuns.RepetitionsNeverDrift | mainline/dd-lg4ff.c:611-663 | a finite effect played c times, under ticks however irregular: after k expiries it plays exactly when the tick falls into window k, counted from the start alone, and it is out of use exactly after c |
| Lg4ffRuns.UpdateReschedules | mainline/dd-lg4ff.c:631-637 | a finite effect updated at u: before its next expiry it plays exactly from u plus delay up to u plus length, so never if the delay is as long as the length, and after it in repetitions counted from u plus length |
| Lg4ffRuns.UpdateCanSilence | mainline/dd-lg4ff.c:616-637 | an effect that plays when started and never when updated |
| Lg4ffRuns.UploadUpdates | mainline/dd-lg4ff.c:945-957 | an accepted upload of a started finite effect is such an update |
| Lg4ffRuns.ExpiryForgetsTheUpdate | mainline/dd-lg4ff.c:763-773 | an update that the expiring tick finds pending is forgotten: the next repetition starts afresh |
| Lg4ffRuns.TimelyTicksPlayOnSchedule | mainline/dd-lg4ff.c:761-777 | with ticks no further apart than one repetition it plays at a tick exactly when the clock modulo the repetition is past the delay and c repetitions are not over |
| Lg4ffRuns.EndlessNeverStops | mainline/dd-lg4ff.c:611-663 | under any tick times that do not go back, an effect of length 0 started or updated at s never expires and keeps its count, and plays after the last tick if and only if that was at s plus its delay or later |
| Lg4ffRuns.UploadUpdatesEndless | mainline/dd-lg4ff.c:928-964 | an accepted upload of length 0 for a started effect counts from the upload |
| Lg4ffRuns.PlayStartsAfresh | mainline/dd-lg4ff.c:974-1032 | a start or restart counts from now, as often as asked, with everything of the old run forgotten |
| Lg4ffRuns.StopAndUploadLeave | mainline/dd-lg4ff.c:928-1046 | a stop takes the effect out of play and keeps it; an upload stores its effect and touches no other, or changes nothing |
| Lg4ffRuns.OthersDoNotInterfere | mainline/dd-lg4ff.c:755-803 | in a run of the whole engine an effect nobody uploads or plays sees the ticks and nothing else |
| Lg4ffRuns.SlotFreedOnlyByStop | mainline/dd-lg4ff.c:1029-1041 | a condition slot goes out of use exactly when its started owner is told to stop |
| Lg4ffRuns.StartedConditionGetsASlot | mainline/dd-lg4ff.c:1003-1025 | a condition effect started without a slot gets one if and only if one of the three is unowned |
| Lg4ffRuns.SlotsCanRunOut | mainline/dd-lg4ff.c:761-777 | a reachable engine in which nothing runs and an uploaded spring, started at any time, gets no slot and writes to none |
| AccelFilter.Estimator.Filter | mainline/hidpp_dd_effect_math.h:203-215 | one call: the tracker after one velocity, and the remaining gap over tau |
| AccelFilter.Estimator.FilterRun | mainline/hidpp_dd_effect_math.h:203-215 | a run of calls: the tracker after all velocities, and the last gap over tau |
| AccelFilter.RelaxIsCeiling | mainline/hidpp_dd_effect_math.h:206-213 | past one span a tick leaves exactly the ceiling of gap * tau / (tau + dt) |
| AccelFilter.SteadyRampSettles | mainline/hidpp_dd_effect_math.h:187-196 | from a tracker on the velocity, behind a ramp of at least one span a tick the gap climbs strictly to ceil(c * tau / dt) and stays there for ever |
| AccelFilter.SlowRampReadsZero | mainline/hidpp_dd_effect_math.h:197-215 | from a tracker on the velocity, below one span a tick the estimate is zero on every tick |
| AccelFilter.TrackIsOdd | mainline/hidpp_dd_effect_math.h:203-215 | mirrored velocities from a mirrored tracker give the mirrored tracker |
| AccelRamps.RampReadingIsOdd | mainline/hidpp_dd_effect_math.h:203-215 | mirrored ramps from mirrored trackers read mirrored accelerations |
| AccelRamps.RampSettlesFrom | mainline/hidpp_dd_effect_math.h:203-215 | from any tracker the gap behind a rising ramp of any slope comes to rest after finitely many ticks, at a gap told from the start: zero, the first resting gap, the last, or where it was between them |
| AccelRamps.ReadingSettles | mainline/hidpp_dd_effect_math.h:203-215 | every steady acceleration from every tracker reads one value from some tick on |
| AccelRamps.FinalReadingIs | mainline/hidpp_dd_effect_math.h:187-215 | that value is nothing, the acceleration, or one more, by a condition on the start |
| AccelRamps.SteadyAccelerationReadExactly | mainline/hidpp_dd_effect_math.h:187-196 | from any tracker a whole acceleration is read back exactly from some tick on if and only if it is zero, or the starting gap in its direction gets past the snap and is less than one time constant above the first resting gap (the latter only if dt or tau is 1) |
| AccelRamps.WholeCountsReadExactly | mainline/hidpp_dd_effect_math.h:187-215 | the same if and only if for runs of whole-count velocities from any tracker |
| AccelRamps.DriverReadsExactlyIff | mainline/hid-logitech-hidpp.c:6841-6851 | with 1 ms and 50 ms, from any tracker: exact from some tick on if and only if the acceleration a is zero or the lag in its direction is below 12800 times a plus 50 |
| AccelRamps.DriverReadsExactlyOrOneTooMuch | mainline/hid-logitech-hidpp.c:6841-6851 | and otherwise 1/256 too much is read for ever |
| AccelRamps.ResetTrackerReadsOneTooMuch | mainline/hidpp_dd_effect_math.h:203-215 | from the reset tracker, velocities 52, 53, 54 and so on read 257 for ever |
| AccelRamps.DriverReadsExactlyFromRest | mainline/hid-logitech-hidpp.c:6841-6851 | from a tracker on the velocity every steady acceleration is read back exactly |
| AccelRamps.LongTimeConstantReadsZero | mainline/hidpp_dd_effect_math.h:203-215 | with 300 ms, from a tracker on the velocity, a gain of one count a tick reads zero for ever |
| AccelFilter.RestingGaps | mainline/hidpp_dd_effect_math.h:203-215 | past the snap, the gaps a ramp of any slope leaves unchanged are exactly one interval |
| AccelFilter.SteadyVelocityIsReached | mainline/hidpp_dd_effect_math.h:197-215 | at constant velocity the gap shrinks by at least dt a tick without overshoot, hits zero within gap / dt ticks and stays there |
| AccelFilter.TrackerStaysInHull | mainline/hidpp_dd_effect_math.h:203-215 | over any run the tracker stays within its start and the velocities seen |
| AccelFilter.NoIntermediateOverflows | mainline/hidpp_dd_effect_math.h:203-215 | for bounded velocities no run overflows a signed 32-bit intermediate |
| EffectShapes.ForceIsLimitedAndSigned | mainline/hidpp_dd_effect_math.h:138-180 | nil in the dead band, within the side's saturation, restoring for positive and destabilising for negative coefficients |
| EffectShapes.ForceIsLinear | mainline/hidpp_dd_effect_math.h:138-180 | past either edge of the dead band the force is that side's coefficient over 0x8000 times the distance to the edge, against it, within one unit, until it reaches that side's saturation |
| EffectShapes.NothingOverflows | mainline/hid-logitech-hidpp.c:6452-6543 | for every 16-bit metric, to which every caller clamps, the 32-bit computation is the unbounded one |
| EffectShapes.ForceNeverRises | mainline/hidpp_dd_effect_math.h:111-180 | with coefficients that are not negative the force never rises with the metric, across both dead-band edges |
| EffectShapes.MirroredForces | mainline/hidpp_dd_effect_math.h:138-180 | for coefficients of either sign, forces at mirrored displacements sum to one exactly when the product is no multiple of 0x8000 and its quotient is below the saturation, else to zero; the larger is the left for springs, the right for anti-springs |
| EffectShapes.OneSideIsStronger | mainline/hidpp_dd_effect_math.h:138-180 | one unit either side of the centre: a spring with force on the left only, an anti-spring with force on the right only |
| EffectShapes.EnvelopeStaysInHull | mainline/hidpp_dd_effect_math.h:52-107 | the shaped level stays between its own level and the phase's, starts on the attack level, ends on the fade level |
| EffectShapes.EnvelopeIsStraight | mainline/hidpp_dd_effect_math.h:52-107 | attack and fade are straight lines between their levels, followed from the start and never overtaken, less than a unit behind; the level itself in between, and no fade that is longer than the effect |
| EffectShapes.EnvelopeIsMonotoneInEachPhase | mainline/hidpp_dd_effect_math.h:52-107 | within attack and within fade the level moves one way only |
| EffectShapes.EnvelopeIsOddIffZeroIsNotRaised | mainline/hidpp_dd_effect_math.h:52-107 | mirrored magnitudes give mirrored results exactly unless the magnitude is zero and the attack starts above zero, or the fade level times the ticks faded reaches the fade length |
| EffectShapes.ZeroCanBeRaised | mainline/hidpp_dd_effect_math.h:52-107 | two envelopes that turn silence into half scale |
| TexturePacer.AtMostTwelveAhead | mainline/hidpp_dd_texture_merge.h:306-325 | after a paced call, samples number at most 12 plus 4000 a second, however the calls fall |
| TexturePacer.AtMostSixteenAheadFromZero | mainline/hidpp_dd_texture_merge.h:306-325 | from a zeroed structure: the first block, then at most 12 samples plus 4000 a second |
| TexturePacer.BriskCallsDiscardNothing | mainline/hidpp_dd_texture_merge.h:306-322 | calls at most a millisecond apart lose nothing to the cap |
| TexturePacer.ShortfallIsBounded | mainline/hidpp_dd_texture_merge.h:306-325 | such calls fall behind 4000 a second by less than four samples plus 1/256 of a sample a call |
| TextureMerge.BandFor | mainline/hidpp_dd_texture_merge.h:219-228 | the highest band whose lower edge is not above the frequency |
| TextureMerge.HarmonicsStayLocked | mainline/hidpp_dd_texture_merge.h:230-267 | from rest, after any sequence of frequencies, phase k is (k+1) times phase 0 modulo 2^32 |
| TextureMerge.SampleForgetsDropouts | mainline/hidpp_dd_texture_merge.h:246-257 | a sample is a function of the fundamental's phase alone: a dropped harmonic resumes in step |
| TextureSound.TablesFollowTheMeasurement | tools/gen_texmerge_tables.py:28-43 | each gain is the nearest 4096th to its measured percentage, and each band's factor the nearest 256th to sqrt(2 / power) of its chord |
| TextureSound.HarmonicReadsTheTable | mainline/hidpp_dd_texture_merge.h:254-256 | a harmonic is the table's value at its phase in 1024ths of a turn, times its gain, rounded down |
| TextureSound.HeardBelow1800Hz | mainline/hidpp_dd_texture_merge.h:246-253 | exactly the harmonics below 1800 Hz are heard: all five below 360 Hz, none from 1800 Hz on |
| TextureSound.AmplitudeFollowsTheFit | mainline/hidpp_dd_texture_merge.h:235-239 | while anything is heard the amplitude is 72 + 1.13 a hertz, within the rounding stated, times the band's factor |
| TextureSound.FullIntensityIsUnscaled | mainline/hidpp_dd_texture_merge.h:258-266 | at 100 percent a sample is the mix at its amplitude, rounded down, never clamped and never overflowing, whatever the table and the phases |
| TextureSound.IntensityScales | mainline/hidpp_dd_texture_merge.h:258-266 | at any other intensity it is that percentage of the sample at 100, truncated toward silence, clamped to 16 bits |
| TextureSound.LouderNeverSofter | mainline/hidpp_dd_texture_merge.h:258-266 | more intensity never makes a sample softer or turns it over; none is silence |
| TextureMerge.SplicedIdleIsStream | mainline/hidpp_dd_texture_merge.h:269-272 | of the library's packets exactly the idle one is eligible, and spliced it is byte for byte the library's stream packet with count 4 |
| TextureMerge.SplicedPacketsOverlap | mainline/hidpp_dd_texture_merge.h:328-348 | packets spliced in a row share nine slots, the newest four are the new block, bytes 0 to 9 are untouched |
| TextureSplice.TexMerge.NextSample | mainline/hidpp_dd_texture_merge.h:230-267 | all phases advance, and the sample is the specified mix of the audible harmonics |
| TextureSplice.TexMerge.Pace | mainline/hidpp_dd_texture_merge.h:306-325 | debt and clock become those of the specified pacer; a block is due exactly when it says so |
| TextureSplice.TexMerge.Roll | mainline/hidpp_dd_texture_merge.h:327-332 | the window loses its oldest four samples and gains the next four synthesised |
| TextureSplice.TexMerge.Splice | mainline/hidpp_dd_texture_merge.h:295-348 | gate, pacer, window and packet buffer after one call, as specified; 4 returned exactly when spliced |
| TextureSplice.WheelHearsOneOscillator | mainline/hidpp_dd_texture_merge.h:295-348 | over any run of calls with settings changing at will, the newest slots of the spliced packets end to end are the output of a single-oscillator reference |
| TextureSound.PitchFollowsTheEngine | mainline/hidpp_dd_texture_merge.h:211-249 | over any run at one engine speed whose firing frequency fits 32 bits, at sample n the fundamental has turned n equal steps, each rpm * cylinders / 120 / 4000 turns to within 0.01 Hz and a 2^32nd of a turn, with the other harmonics in step |
| TextureSound.FiringIsExactIff | mainline/hidpp_dd_texture_merge.h:211-217 | the firing frequency in 0.01 Hz is a twelfth of rpm_x10 times cylinders, rounded down, if and only if that fits 32 bits |
| TextureSound.ZeroIntensityIsSilence | mainline/hidpp_dd_texture_merge.h:258-266 | over any run at intensity 0 the wheel hears the centre and nothing else |
| TextureSound.GateIff | mainline/hidpp_dd_texture_merge.h:301-307 | when a call gets as far as the pacer: enabled, a silent packet, 300 rpm or more, and a stamp no older than 200 ms; the exact meaning of a stamp from the future |
| TextureSplice.WheelHearsNoFasterThanTheClock | mainline/hidpp_dd_texture_merge.h:306-325 | what the wheel hears is never more than twelve samples ahead of 4000 a second |
| TextureSplice.WheelHearsNoSlowerThanTheClock | mainline/hidpp_dd_texture_merge.h:306-325 | with paced calls a millisecond apart at most it lags by less than a block plus a rounding a call |
| PidReports.IndexMeansUsage | userspace/logi-wheel/crates/logi-ffb/src/pidff.rs:86-116 | an index into the usage list and the usage it stands for select the same effect; only custom force selects none |
| PidReports.ByteSelectsItsUsage | userspace/logi-wheel/crates/logi-ffb/src/pidff.rs:86-116 | a byte selects a kind if and only if it is the kind's usage on the Physical Interface Device page or the place of that usage in the descriptor's list |
| PidReports.DecodeNeverCreates | userspace/logi-wheel/crates/logi-ffb/src/pidff.rs:232-360 | no output report decodes to a creation |
| PidReports.ReportRoundTrip | userspace/logi-wheel/crates/logi-ffb/src/pidff.rs:232-360 | every operation an output report can say is decoded from the report that says it |
| PidReports.DecodedIsSayable | userspace/logi-wheel/crates/logi-ffb/src/pidff.rs:232-360 | nothing else is ever decoded: no creation, no duration sentinel, ramp levels of one unsigned byte |
| PidReports.KnownCommands | userspace/logi-wheel/crates/logi-ffb/src/pidff.rs:186-346 | the six device controls, start, solo start, stop, free and gain, byte for byte |
| PidReports.KnownLevels | userspace/logi-wheel/crates/logi-ffb/src/pidff.rs:300-318 | a negative constant level and a ramp from none to all, byte for byte |
| FfEffects.FfRoundTrip | userspace/logi-wheel/crates/logi-ffb/src/sink.rs:208-272 | the kind, the direction up to its image, and exactly the parameters that matter to the kind are read back from the kernel effect |
| FfEffects.DirectionsShareAnImageIff | userspace/logi-wheel/crates/logi-ffb/src/sink.rs:196-202 | all directions are told apart except north from east, south from west, and those past the full turn from each other |
| FfEffects.DirectionsKeepTheirSide | userspace/logi-wheel/crates/logi-ffb/src/sink.rs:196-202 | opposite directions stay opposite, none lands where the wheel feels nothing |
| FfSink.ApplyKeepsBound | userspace/logi-wheel/crates/logi-ffb/src/sink.rs:353-480 | every operation keeps blocks and kernel effects paired one to one, with none left over |
| FfSink.Sink.Upload | userspace/logi-wheel/crates/logi-ffb/src/sink.rs:353-373 | refused without a creation or by the kernel; otherwise the whole effect under the block's id, old or new |
| FfSink.Sink.Apply | userspace/logi-wheel/crates/logi-ffb/src/sink.rs:375-485 | maps and kernel after one operation, error results included, as specified |
| FfSink.Sink.StopAll | userspace/logi-wheel/crates/logi-ffb/src/sink.rs:455-461 | every uploaded effect is stopped, effects and gain stay |
| FfSink.Sink.EraseAll | userspace/logi-wheel/crates/logi-ffb/src/sink.rs:467-474 | no block and none of their kernel effects is left, gain full |
| FfSink.Sink.Shutdown | userspace/logi-wheel/crates/logi-ffb/src/sink.rs:494-501 | the kernel holds no effect of ours and full gain, whatever happened before |
| FfMirror.KernelIsLastWriterWins | userspace/logi-wheel/crates/logi-ffb/src/sink.rs:353-480 | after any run, refused uploads included: ids injective, none leaked, and a block whose last report got through is played as the last report of every field group since it was freed reads |
| FfPlays.PlaysIffLastStarted | userspace/logi-wheel/crates/logi-ffb/src/sink.rs:423-461 | after any run a block in the kernel plays if and only if the last start, stop or stop-all to find it there was a start, and then as often as it said, at least once |
| FfPlays.GainIsLastSet | userspace/logi-wheel/crates/logi-ffb/src/sink.rs:448-475 | after any run the gain is what the last of gain, enable, disable and reset says, full at 255 and from the outset, none at 0 |
| FfPlays.FailsIffNotThere | userspace/logi-wheel/crates/logi-ffb/src/sink.rs:353-429 | after any run an operation fails exactly when it sets a block never created since it was freed or refused by the kernel, or operates one not in the kernel; a failed one leaves the kernel as it was |
| FfMirror.GroupsCommute | userspace/logi-wheel/crates/logi-ffb/src/sink.rs:375-430 | in the last-writer-wins reading, reports of different groups or blocks may be swapped anywhere |
| FfMirror.SinkForgetsTheOrder | userspace/logi-wheel/crates/logi-ffb/src/sink.rs:353-430 | swapped so in a run of the sink itself: the same kinds and parameters, and the same kernel effect, up to its id, for every block that is up to date in both; with both accepted it is so in both or in neither |
| FfProxy.CreateKeepsSound | userspace/logi-wheel/crates/logi-ffb/src/proxy.rs:405-417 | a creation is numbered one past the creations since the last reset, and is the block reported back |
| FfProxy.NoCreationReachesALiveBlock | userspace/logi-wheel/crates/logi-ffb/src/proxy.rs:309-317 | in every interleaving of poll loop and worker, a creation among the first 256 since a reset finds its block unused in the sink |
| FfProxy.CreationCanReachALiveBlock | userspace/logi-wheel/crates/logi-ffb/src/proxy.rs:149-159 | the bound is exact: a reachable state in which the worker is about to apply creation 257 to a block in use |
| FfProxy.WorkerIsLastWriterWins | userspace/logi-wheel/crates/logi-ffb/src/proxy.rs:267-274 | in every interleaving the kernel plays the last word on each block among the operations the worker has taken |
| FfProxy.ReplyNamesTheLastCreation | userspace/logi-wheel/crates/logi-ffb/src/proxy.rs:443-454 | the block reported to the host is that of its last creation since the last reset, or 0 |
| FfProxy.Host.Dispatch | userspace/logi-wheel/crates/logi-ffb/src/proxy.rs:309-317 | a reset restarts the numbering; every operation is queued last |
| FfProxy.Host.OnCreate | userspace/logi-wheel/crates/logi-ffb/src/proxy.rs:405-417 | an unknown type or short body changes nothing, anything else is numbered and queued |
| FfProxy.Host.OnReport | userspace/logi-wheel/crates/logi-ffb/src/proxy.rs:390-393 | a report is queued exactly when it decodes |
| FfProxy.Host.OnBlockLoad | userspace/logi-wheel/crates/logi-ffb/src/proxy.rs:443-454 | the reply names the block of the last creation on the channel since the last reset, or 0, even while the worker has not got to it |
| FfProxy.RunSinkWorker | userspace/logi-wheel/crates/logi-ffb/src/proxy.rs:267-274 | the worker applies the whole channel in order whatever fails, then leaves the sink as it was opened |
| AirborneGate.Gate.Airborne | userspace/logi-wheel/crates/logi-tf-relay/src/assettocorsa.rs:257-285 | one read: the credit left and the answer, for short, non-finite, loaded and unloaded blocks |
| AirborneGate.AirborneIffRecentlyLoaded | userspace/logi-wheel/crates/logi-tf-relay/src/assettocorsa.rs:239-285 | on any history the answer is yes exactly when this read is valid and unloaded, some read carried load, and fewer than 60 valid unloaded reads followed the latest one |
| AirborneGate.AirborneIffLastGroundedRecently | userspace/logi-wheel/crates/logi-tf-relay/src/assettocorsa.rs:239-285 | in terms of the loads: yes exactly to four numbers of at most a newton when, of the reads of four numbers, fewer than 60 such followed the latest with one above |
| AirborneGate.InvalidReadsLeaveNoTrace | userspace/logi-wheel/crates/logi-tf-relay/src/assettocorsa.rs:257-285 | short or non-finite reads never change a later answer |

## Left out

- Write failures on the TrueForce device: every write in the trace proofs succeeds; `PushS16` models the error returns a stream error causes.
- Two control threads at once, and a close concurrent with setters of the same index: the single-control-thread contract is assumed.
- Finer interleavings: window and held force are written without the lock; one tick's update, one clear of the window and one packet build are each taken as a single step.
- `logitf_session_ensure`'s init packets: the wire starts after them; only the flags and the sequence byte they leave are modelled.
- Samples given as floats, the sample-repeat setter and the torque setters of exports.c, and the feedback reader.
- RelayHub.RelayIn.Open: socket errors other than "in use" are one refusal; file descriptors and datagram contents (parsing, rev lights) are not modelled.
- A datagram's receive buffer limit of 64 bytes, and reordering or duplication by the loopback interface.
- G923 envelope, ramp and periodic level arithmetic: each effect's level in a tick is an arbitrary integer; phase and time_playing are therefore absent.
- The G923 timer callback is atomic and its period is not zero; times are unbounded integers, so the wrap of jiffies is absent, and so is the overflow of a timer period doubled too often.
- Autocentre, range and LED commands of the G923, deinit, peak level and published force.
- "A slot's type matches its owner's current type": an effect that ran out keeps its slot, and may be uploaded again with another type.
- The texture merge's sine table: any 1024 values; its operating-range decoder.
- AccelFilter.NoIntermediateOverflows: integers are unbounded in the filter itself; the 32-bit bound is this lemma's, for bounded velocities.
- EffectShapes.ForceIsLimitedAndSigned: stated on unbounded integers; `NothingOverflows` carries it to 32 bits for 16-bit metrics, wider ones are not claimed.
- FfSink.Sink.Apply: writes of events succeed; uploads may be refused. The kernel is assumed to hand out ids not in use.
- FfProxy.NoCreationReachesALiveBlock: stated up to 256 creations between resets; past that the numbering wraps by design.
- Device discovery, input forwarding, uhid framing and the other Get_Report replies of the proxy.
- The Rust twin of the telemetry hub, floating-point telemetry, command-line tools and probes.
