# Ultrasonic welder controller: a Dafny model of the firmware's state machines

The firmware under `fw/` runs one super-loop in which small machines share
state: a Modbus slave on RS-485 and TCP, the run arbiter with its measurement
core, the pneumatic weld cycle, the panel link, and the FRAM configuration.
This project models the parts whose guarantees the source comments call
load-bearing, and proves them.

How the model is built:

* Each machine has a specification on values (a datatype and a step function)
  and a class that follows the source statement by statement and is proved to
  take exactly that step. Properties are then proved about the specification,
  over whole runs and every interleaving.
* Machine words are integers with the source's width and wrap-around written
  out. The millisecond tick is an unbounded clock seen modulo 2^32. Where two
  instants are compared the run properties ask that they lie less than a full
  wrap apart: 2^32 minus the compared limit for the hold watchdog, the weld
  gate and the run ceiling.
* `app_config_t` is grouped into records (`Config.Cfg`); the dirty bit mask of
  the staging buffer is a set of field numbers; the register table, the
  coils, the frame buffers, the DMA ring and the FRAM page are arrays changed
  in place.

## The modules

| module | what it covers |
|---|---|
| Words, Wrappers | bytes, words, the wrapping clock, bits of a word; optional values |
| Crc16, ModbusCore | the RTU check (MODBUS over Serial Line V1.02, sections 2.5.1.1 and 2.5.1.2) and function codes 1 to 6 (MODBUS Application Protocol V1.1b3, sections 6.1 to 6.6) |
| ModbusTcpFrame, ModbusTcp, TcpSegmentation | the MBAP envelope (MODBUS Messaging on TCP/IP V1.0b, section 3.1.3), the accumulating server, and whole sessions |
| Usart6Ring, Dgus | the serial receive ring; the panel's frame builder and parser |
| Config, CfgStage, HoldWatchdog | the configuration, staged link settings, the hold-to-run watchdog |
| RegCalc, Regulator, RunEnergy | scaling and filtering, the run arbiter, energy and run length |
| RunRules, RunReadings | when a run begins and what ends it, in the arbiter's own fields and over schedules; warm-up, displayed readings and peaks |
| Remote, RemoteRuns, StageRuns | what a register write means, stated without a register table; what holds over every run; staged edits over runs |
| RemoteCommands, RemoteRegisters | what each command does to the machine, for one message, one tick and over runs; which field each register number sets and shows |
| RemoteControl, RemoteTick, RemoteSession | the mirror, the comparison chain and the tick as the source writes them, proved to do what Remote says; whole sessions |
| WeldFsm, WeldSchedule | the press cycle and its timing |
| WeldTrigger, WeldGlue, WeldSafety | keys and sensors, the 10 ms glue, and safety over every interleaving |
| PressSchedule, PressWelds, PressRules | the press driven by its scans: stages, outputs and ends of a cycle in the configuration's own settings; what aborts it and what starts a run |
| Fram, ConfigStore | the FRAM page and saving and loading the configuration with failing reads |

## Where to start reading

* `RemoteTick.Slave.Pass`: mirror, decode and a thirty-branch comparison chain
  do to the machine exactly what a direct dispatch on the written register
  does. The invariant carried from tick to tick is `RemoteControl.Quiet`;
  `RemoteSession.Session` carries it through whole sessions.
* `RemoteRuns.HoldOwnership`: over every interleaving a remote run is watched
  if and only if START=2 began it.
* `PressSchedule.DelayCycle` and `DelayOutputs`, `PressWelds.TriggerReaches` and
  `EnergyCycle`, `WeldSchedule.NoMemory`, `WeldSafety.CycleRunMeansWelding`,
  `WeldSafety.TwoHandRearm`: the press cycle.
* `RunRules.BeginsExactly` and `RunEndsExactly`, `RemoteCommands.StopHolds`,
  `RemoteSession.StopFrameStops`: what starts and what stops a run.
* `TcpSegmentation.SegmentationIndependence`, `Crc16.BurstDetected`,
  `Dgus.StreamComesBack`, `Usart6Ring.NothingLost`: the wire.
* `RunEnergy.EnergyIsTrueSum`, `RegCalc.FilterConverges`,
  `ConfigStore.RoundTrip`: arithmetic and persistence.

## What the code does that its comments do not say

* A commit with nothing staged leaves the status as it is. Sent right after a
  commit that went through it therefore still reads COMMIT_OK
  (`CfgStage.EmptyCommitCanReadOk`); `CfgStage.CommitOkMeans` gives the exact
  condition, and after a timeout COMMIT_OK is not read until something is
  staged again (`StageRuns.ExpiredNeverReadsOk`).
* The displayed power is truncated to 16 bits exactly when the displayed
  current exceeds 29789 (`RegCalc.PowerTruncatesIff`). No calibration within
  +-1000 reaches that; a calibration value outside it, which the remote path
  clamps but a stored word need not respect, can
  (`RegCalc.PanelCalCanWrapPower`).
* An abort in the single step between arming the weld and its entry emits a
  stop edge although the ultrasonics were never started, and at no other time
  does a stop come without a start (`WeldFsm.ActuatorStep`;
  `WeldFsm.StopWithoutStart` is such a run). The release it causes ends
  whatever run is on, whoever owns it
  (`WeldSafety.AbortBeforeEntryStopsAnyRun`).
* The start guard keeps a cycle from beginning when its ultrasonic start would
  be refused. A run started by another source, a fault, or a seek between that
  moment and the weld's entry still leaves the press welding without a run of
  its own (`WeldSafety.StartAtWeldEntry` gives the exact condition,
  `WeldSafety.CycleGetsItsRun` what must not happen in between).
* A power below 50 in a plain weld would wrap around at 16 bits before it is
  narrowed (`WeldFsm.BelowFifty`); the two-stage powers are silent there. The
  clamps of the remote path and of loading keep it out.
* Saving and loading is the identity exactly on configurations whose power,
  energy limit, time limit and link indices are in range
  (`ConfigStore.RoundTrip`): the time limit is stored in one byte.

## Model

| member | source | states |
|---|---|---|
| Words.ElapsedIsReal | fw/src/app_hold_wdt_fsm.c:38 | the unsigned difference of two tick readings is the real time between them when they are less than 2^32 ms apart |
| Crc16.Compute | fw/src/app_modbus_core.c:22-38 | the nested loops leave the register of the bitwise division of the whole buffer, so that the two result bytes in line order are the check bits |
| Crc16.ShiftByte | fw/src/app_modbus_core.c:27-34 | the inner loop is eight steps of the bit register |
| Crc16.SealedIffZeroResidue | fw/src/app_modbus_core.c:189-192 | a frame carries its own check bytes exactly when running the register over all of it leaves zero |
| Crc16.UndetectedIff | fw/src/app_modbus_core.c:189-192 | a change to a sealed frame goes unseen exactly when the difference pattern alone leaves a zero register |
| Crc16.BurstDetected | fw/src/app_modbus_core.c:182-193 | any burst of at most 16 bits in a sealed frame, check bytes included, is seen |
| Crc16.TwoByteErrorDetected | fw/src/app_modbus_core.c:182-193 | one changed byte or two adjacent ones are seen |
| Crc16.OddFlipsDetected | fw/src/app_modbus_core.c:182-193 | any odd number of flipped bits is seen |
| Crc16.KnownFrame | fw/src/app_modbus_core.c:22-38 | the example frame of the serial line standard, 02 07 41 12, carries its check bytes: generator, start value, bit and byte order are the standard's |
| ModbusCore.RequestOf | fw/src/app_modbus_core.c:201-218 | every accepted request stays inside its table |
| ModbusCore.Core.Decode | fw/src/app_modbus_core.c:175-223 | the tables change as the request says, the answer is the request's reply followed by its own check bytes, and silence is exactly an ignored request, which changes nothing |
| ModbusCore.Core.AnswerRegs | fw/src/app_modbus_core.c:41-70 | a register reply carries the registers asked for; a request past the table is silent |
| ModbusCore.Core.AnswerCoils | fw/src/app_modbus_core.c:103-142 | a coil reply carries the coils asked for, packed and zero-padded |
| ModbusCore.Core.AnswerWriteReg | fw/src/app_modbus_core.c:73-100 | function 6 stores the raw word, remembers the address and echoes the request |
| ModbusCore.Core.AnswerWriteCoil | fw/src/app_modbus_core.c:145-169 | function 5 sets the coil for any nonzero value and echoes the request |
| ModbusCore.Core.Init | fw/src/app_modbus_core.c:12-19 | both tables zero, and no register counts as written |
| ModbusCore.SixIsRegisterWrite | fw/src/app_modbus_core.c:213-221 | function code 6 is reported exactly for an accepted register write |
| ModbusCore.RegisterReplyDecodesBack | fw/src/app_modbus_core.c:58-65 | a master unpacking a register reply gets holding[addr..addr+num) and the announced byte count |
| ModbusCore.CoilReplyDecodesBack | fw/src/app_modbus_core.c:118-140 | a master unpacking a coil reply gets coils[addr..addr+num) followed by zero bits |
| ModbusCore.WriteReplyEchoes | fw/src/app_modbus_core.c:90-95 | a write is answered with its own request under the device address |
| ModbusCore.FrameMeans | fw/src/app_modbus_core.c:175-223 | which frames are served and what the two writes store, read off the bytes of the frame |
| ModbusCore.RegisterBytes | fw/src/app_modbus_core.c:41-70 | byte by byte, a register reply to a served frame holds the registers it asks for, high byte first |
| ModbusCore.CoilBytes | fw/src/app_modbus_core.c:103-142 | coil i of the request is bit i modulo 8 of payload byte i / 8, and the bits past the last coil are clear |
| ModbusCore.CorruptedFrameIgnored | fw/src/app_modbus_core.c:182-193 | a sealed frame hit by a burst of at most 16 bits or an odd number of flips is silent: no answer, function code 0, tables unchanged |
| ModbusCore.TwoByteErrorIgnored | fw/src/app_modbus_core.c:182-193 | a sealed frame with one byte or two adjacent bytes changed is silent in the same way |
| ModbusTcpFrame.SamePduSameRequest | fw/src/app_modbus_core.c:194-218 | a request means the same over RTU and over TCP |
| ModbusTcpFrame.SamePduSameReply | fw/src/app_modbus_tcp_frame.c:30-46 | the TCP reply is the RTU reply without its check bytes, under MBAP with the identifiers echoed |
| ModbusTcpFrame.BuildResponse | fw/src/app_modbus_tcp_frame.c:5-48 | a well-formed request changes the tables as the same request over RTU and is answered by the enveloped reply; anything else is silent and without effect |
| ModbusTcpFrame.PutReply | fw/src/app_modbus_tcp_frame.c:36-46 | the bytes of the reply: MBAP with length, unit identifier in place of the device address, nothing else touched before them |
| ModbusTcp.Peek | fw/src/app_modbus_tcp_frame.c:51-68 | a frame is reported exactly when a whole well-formed envelope is buffered, and a desync exactly when a whole header is bad |
| ModbusTcp.OneWritePerPoll | fw/src/app_modbus_tcp.c:172-216 | one poll serves at most one register write, and it is the last frame served |
| ModbusTcp.WalkConsumes | fw/src/app_modbus_tcp.c:160-222 | the frames served are the front of the buffer byte for byte and the rest is kept, unless it begins with a bad header |
| ModbusTcp.WalkGoesOn | fw/src/app_modbus_tcp.c:172-216 | a poll stops early only at a register write, at a bad header, or short of a whole frame |
| ModbusTcp.OnlyLastWriteCounts | fw/src/app_modbus_tcp.c:160-216 | the register table after a poll differs from the one before only in the register its last frame wrote |
| ModbusTcp.Server.Receive | fw/src/app_modbus_tcp.c:131-155 | what fits of the received bytes is appended |
| ModbusTcp.Server.Compact | fw/src/app_modbus_tcp.c:217-222 | the unserved tail moves to the front unchanged |
| ModbusTcp.Server.Poll | fw/src/app_modbus_tcp.c:123-233 | one poll serves exactly the frames of the walk over its buffer, keeps exactly the rest, and its replies are the answers in order within 516 bytes |
| TcpSegmentation.PollServesPrefix | fw/src/app_modbus_tcp.c:172-216 | on a buffer that begins a stream of good frames a poll serves a prefix of them and never desyncs |
| TcpSegmentation.FullBufferHoldsFrame | fw/src/app_modbus_tcp.c:131-133 | a full accumulator of such a stream always holds a complete frame |
| TcpSegmentation.SessionServesInOrder | fw/src/app_modbus_tcp.c:123-233 | over a whole session the frames served are a prefix of the stream and what is left is the rest of it |
| TcpSegmentation.SegmentationIndependence | fw/src/app_modbus_tcp.c:123-233 | two sessions over the same frames, cut and polled in any way, that have consumed every byte serve the same frames: exactly those that were sent, in order |
| TcpSegmentation.EverythingIsServed | fw/src/app_modbus_tcp.c:123-233 | once the chip reports all remaining bytes, one poll per frame is enough for every frame to be served |
| Usart6Ring.Ring.Store | fw/drivers/usart6_mb.c:36-43 | the DMA writes one byte and wraps: the queue gains it at its end |
| Usart6Ring.GapIsThreeCharacters | fw/drivers/usart6_mb.c:22-25 | the break time is three characters of eleven bits at the configured speed, rounded up to milliseconds, and at least two |
| Usart6Ring.Ring.ReceiveFrame | fw/drivers/usart6_mb.c:142-176 | while less than one turn is outstanding a poll of the ring is a poll of the byte queue |
| Usart6Ring.Ring.Drain | fw/drivers/usart6_mb.c:163-171 | the drain loop empties the ring, counts every byte, and keeps them in order across the wrap |
| Usart6Ring.Ring.Flush | fw/drivers/usart6_mb.c:194-196 | a transmission discards exactly what is pending when it ends |
| Usart6Ring.NothingLost | fw/drivers/usart6_mb.c:142-197 | over any run every received byte is in exactly one frame, oversize run or discard, or still pending, in order; frames fit and oversize runs do not |
| Usart6Ring.EndsExactlyAfterStillness | fw/drivers/usart6_mb.c:150-160 | a poll ends a frame if and only if bytes are pending, none arrived since the poll that last saw movement, and that was at least the gap ago |
| Usart6Ring.BurstIsOneFrame | fw/drivers/usart6_mb.c:142-176 | a burst on an idle line is returned whole as one frame |
| Dgus.BuildFrame | fw/drivers/dgus_lcd.c:72-89 | the transmit buffer holds the frame's wire form |
| Dgus.Parser.Take | fw/drivers/dgus_lcd.c:208-257 | one byte moves the parser as specified, keeps collected plus remaining equal to LEN between 4 and 26, and counts each dropped frame |
| Dgus.Parser.Poll | fw/drivers/dgus_lcd.c:260-270 | a poll consumes the ring up to the end of one frame, or all of it |
| Dgus.FrameComesBack | fw/drivers/dgus_lcd.c:72-89 | a built frame is parsed back to itself when its bytes come within 50 ms of its header |
| Dgus.StreamComesBack | fw/drivers/dgus_lcd.c:208-270 | any sequence of frames of payload 1 to 23, with header-free noise between them, is returned exactly and in order |
| Dgus.OnlyFromTheLine | fw/drivers/dgus_lcd.c:208-257 | on any input, a byte completes a frame only if the input ends with exactly that frame's bytes, count in range and each byte within 50 ms |
| Config.WireRoundTrip | fw/src/app_cfg_stage.c:107-113 | two's complement words and signed values convert both ways without loss |
| CfgStage.CommitOutcome | fw/src/app_cfg_stage.c:60-104 | a commit that goes through clears the edit, a rejected one keeps every word and mark and says why, an empty one changes nothing |
| CfgStage.CommitOkMeans | fw/src/app_cfg_stage.c:60-104 | COMMIT_OK after a commit means it went through, or it was empty and the status already said so |
| CfgStage.ExpiredNeverCommits | fw/src/app_cfg_stage.c:40-66 | an expired edit reads REJ_TIMEOUT, also after a commit that follows at once, which does not go through |
| CfgStage.EmptyCommitCanReadOk | fw/src/app_cfg_stage.c:64-66 | the empty commit that does read COMMIT_OK |
| CfgStage.CommitTakesExactlyDirty | fw/src/app_modbus.c:69-98 | exactly the dirty fields take their staged words, which read back unchanged; all others keep theirs |
| CfgStage.CommitSparesOwnLink | fw/src/app_cfg_stage.c:87-93 | a commit over RTU cannot change the serial settings, one over TCP cannot change the addresses |
| CfgStage.Staging.Write | fw/src/app_cfg_stage.c:22-29 | a staged write records word, mark, time and status |
| CfgStage.Staging.Tick | fw/src/app_cfg_stage.c:40-49 | a pending edit expires after 30 s, an empty one never does |
| CfgStage.Staging.Commit | fw/src/app_cfg_stage.c:60-104 | the three checks in order give the specified outcome |
| HoldWatchdog.HoldWdt.Keep | fw/src/app_hold_wdt_fsm.c:19-24 | a keep signal renews an armed session and does nothing else |
| HoldWatchdog.HoldWdt.Step | fw/src/app_hold_wdt_fsm.c:27-43 | the session ends quietly when the run is no longer remote, and trips exactly when the last keep is 600 ms old |
| RegCalc.CurrentNeverTruncates | fw/src/app_reg_calc.c:107-115 | the displayed current is never cut by its 16-bit cast for any filtered reading in range |
| RegCalc.PowerTruncatesIff | fw/src/app_reg_calc.c:118-121 | the displayed power loses bits exactly above a current of 29789 |
| RegCalc.NoTruncationInCalRange | fw/src/app_reg_calc.c:107-121 | with the calibration within +-1000 neither cast loses bits |
| RegCalc.PanelCalCanWrapPower | fw/src/app_reg_calc.c:107-121 | a calibration value outside that range for which the power does wrap |
| RegCalc.FilterConverges | fw/src/app_reg.c:309-318 | with a constant input the error after n commits is the first error divided by 2^n, rounded up, without overshoot |
| RegCalc.SettledAfter19 | fw/src/app_reg.c:309-318 | after 19 commits the error is at most a sixteenth |
| RegCalc.FilterStaysInRange | fw/src/app_reg.c:309-318 | the filter never leaves the range of its inputs |
| Regulator.CommandMeaning | fw/src/app_reg.c:225-268 | a run begins only by an accepted START and then belongs to its source; a release ends any run |
| Regulator.Arbiter.Command | fw/src/app_reg.c:225-268 | the in-place command does what the specification says, the swallowed press included |
| Regulator.Arbiter.CheckSafety | fw/src/app_reg.c:408-426 | the 30 s ceiling stops any run |
| Regulator.Arbiter.CheckTerminate | fw/src/app_reg.c:429-469 | energy runs end by energy or fault by time, hand runs by the on-time limit |
| Regulator.Arbiter.Acquire | fw/src/app_reg.c:306-321 | fifty samples make one filter commit |
| Regulator.Arbiter.Publish | fw/src/app_reg.c:325-405 | one publication, with the seek edges, the peaks, the energy and the copies |
| Regulator.Arbiter.Tick | fw/src/app_reg.c:484-519 | the order of a tick: warm-up, ceiling, automatic stops, acquisition, publication |
| RunEnergy.EveryRunInv | fw/src/app_reg.c:484-519 | the run invariant holds over every schedule of commands, faults and ticks |
| RunRules.StartBegins | fw/src/app_reg.c:225-245 | a START begins a run if and only if warm-up is over, nothing runs, nothing is at fault, none of seek or reset, overload, emergency stop and horn is on, and it is not a swallowed press; otherwise run and measurement stay |
| RunRules.BeginsExactly | fw/src/app_reg.c:133-159 | over the schedules of the arbiter a run goes from none to an owner exactly by such a START |
| RunRules.EnergyEnds | fw/src/app_reg.c:429-469 | in energy mode reaching the target ends a panel or remote run at once, else its time limit does with the fault, and before that nothing changes |
| RunRules.OnTimeEnds | fw/src/app_reg.c:457-467 | without energy mode only the on-time limit of the hand model ends a remote run |
| RunRules.RunEndsExactly | fw/src/app_reg.c:408-519 | over every schedule, in real time: exactly when a tick ends a run, and exactly when it raises the fault |
| RunReadings.NoRunBeforeWarmup | fw/src/app_reg.c:484-497 | whatever the commands, no run is on before the 4010th millisecond after power-on |
| RunReadings.WarmupEnds | fw/src/app_reg.c:484-497 | with ticks at most 10 ms apart warm-up is over after 8.01 s |
| RunReadings.TickRates | fw/src/app_reg.c:501-519 | one sample per millisecond and one publication per two; between publications the shown measurement stays |
| RunReadings.SteadySampleSettles | fw/src/app_reg.c:306-321 | from any state a thousand equal samples bring the filtered current to six times the sample or one below |
| RunReadings.SteadyDisplay | fw/src/app_reg_calc.c:107-115 | the current then displayed is 59/126 of that plus the calibration, within the one count the filter may lack, and zero up to 14 |
| RunReadings.PeaksAreTrue | fw/src/app_reg.c:354-371 | over every run of events the peaks are the highest readings published live since they were cleared, and a release shows them as the last run's |
| RunEnergy.EnergyIsTrueSum | fw/src/app_reg.c:372-375 | the accumulator never wraps: it is the true sum of the published power since it was cleared, and the energy shown is that sum divided by 250 |
| RunEnergy.PublishedRunIsYoung | fw/src/app_reg.c:408-426 | no publication sees a run 30 s old, and none is more than the 15000th of its run |
| RunEnergy.RegulateKeepsSource | fw/src/app_reg.c:484-519 | a tick keeps the run or ends it; it starts nothing |
| RunEnergy.BootFilter | fw/src/app_reg.c:115-129 | power-on begins with the filter in range |
| RunEnergy.FilterAlwaysInRange | fw/src/app_reg.c:306-321 | over every schedule of 12-bit samples the filtered current is at most 24570 |
| Remote.CalFromWire | fw/src/app_cfg_stage.c:107-113 | a calibration word lands within +-1000 |
| RemoteCommands.StopMeans | fw/src/app_modbus.c:422-424 | STOP=1 ends whatever run is on, over either link and with the gate open or closed, latches its readings, and touches nothing else |
| RemoteCommands.StartMeans | fw/src/app_modbus.c:336-358 | exactly when START=1 and START=2 begin a run, and what every START value does to run, watchdog and power |
| RemoteCommands.CommitMeans | fw/src/app_modbus.c:425-452 | exactly when a commit message goes through, by field numbers and ranges, and what it changes, saves and announces |
| RemoteCommands.WatchdogMeans | fw/src/app_modbus.c:769-776 | a hold session whose last signal is 600 ms old has its run released and is over, and nothing else is touched |
| RemoteCommands.StopEndsTick | fw/src/app_modbus.c:766-815 | a tick that accepts STOP=1 ends with no run |
| RemoteCommands.BeginsExactly | fw/src/app_modbus.c:336-358 | over the remote side's interleavings, exactly which events take the machine from no run to one |
| RemoteCommands.StopHolds | fw/src/app_modbus.c:422-424 | once STOP=1 was accepted nothing runs until somebody starts something |
| RemoteRegisters.StatusReadsBack | fw/src/app_modbus.c:219-234 | after a mirror each bit of the status word tells its own fact |
| Remote.SettingChangesOnlyItself | fw/src/app_modbus.c:453-612 | a write to a setting changes at most that setting, never the counter or the link settings, and whatever it changes is saved |
| Remote.WriteBackIsSilent | fw/src/app_modbus.c:453-612 | writing back what a setting shows does nothing |
| Remote.SettingIdempotent | fw/src/app_modbus.c:453-612 | writing the same word twice leaves the machine as once |
| Remote.SettingLandsInRange | fw/src/app_modbus.c:453-602 | an acting write leaves the setting in its range, and shows the written word when that was in range |
| RemoteRuns.HoldOwnership | fw/src/app_modbus.c:336-358 | over every interleaving a running remote run is watched if and only if START=2 began it, and a session trips at most once |
| RemoteRuns.BootOwned | fw/src/app_modbus.c:711-733 | power-on begins with no run to own and the watchdog disarmed |
| RemoteRuns.HoldIsFresh | fw/src/app_modbus.c:769-776 | after every watchdog step an active hold run had START=2 or START=3 accepted less than 600 ms before |
| RemoteRuns.TripsExactlyWhenStale | fw/src/app_hold_wdt_fsm.c:27-43 | the watchdog trips if and only if an armed session's run is remote and its last signal is 600 ms old |
| RemoteRuns.KeepNeverStarts | fw/src/app_modbus.c:355-357 | once disarmed and stopped, no number of START=3 writes starts a run |
| RemoteRuns.LinkSettingsOnlyByCommit | fw/src/app_modbus.c:425-452 | a tick changes the serial settings only by a commit over TCP and the addresses only by one over RTU, and then exactly the dirty fields |
| RemoteRuns.EditAfterMessage | fw/src/app_cfg_stage.c:22-104 | what any message does to the staged edit; a rejected commit keeps all of it |
| RemoteRuns.StagedValueIsLast | fw/src/app_modbus.c:624-637 | over every run the word a commit would take is the last one staged through the open gate |
| StageRuns.EditStep | fw/src/app_cfg_stage.c:22-104 | after any event a field is pending if and only if the event staged it through the open gate, or it was pending and the event did not end the edit |
| StageRuns.PendingExactlySinceStaged | fw/src/app_cfg_stage.c:22-104 | over every run a field is pending if and only if it was staged through the open gate and no later event expired, discarded, committed or relinked the edit away |
| StageRuns.ExpiredNeverReadsOk | fw/src/app_cfg_stage.c:40-66 | once an edit has expired, with nothing staged since, no number of commits or other messages makes the status read COMMIT_OK |
| StageRuns.EditExpiresExactly | fw/src/app_cfg_stage.c:40-49 | over every run, in real time: a pending edit times out exactly when its last word was staged 30 s or more ago |
| RemoteControl.WriteIsPending | fw/src/app_modbus.c:782-799 | one write into a quiet, mirrored table leaves exactly that write to be found |
| RemoteControl.Panel.ServeStart | fw/src/app_modbus.c:336-358 | START values 1, 2, 3 and others |
| RemoteControl.Panel.TakeStaged | fw/src/app_modbus.c:87-98 | the dirty fields are unpacked into the configuration |
| RemoteControl.Panel.ServeCommit | fw/src/app_modbus.c:432-452 | commit and discard, with the hooks of an address commit |
| RemoteControl.Panel.ServeCommands | fw/src/app_modbus.c:405-452 | each command register is consumed and served by its rule |
| RemoteControl.Panel.ServeTimes | fw/src/app_modbus.c:453-501 | of the timing, power and energy links of the chain only the pending register's can fire, and it applies that register's rule |
| RemoteControl.Panel.ServeModes | fw/src/app_modbus.c:502-565 | likewise for the two-stage, limit and mode links |
| RemoteControl.Panel.ServeModel | fw/src/app_modbus.c:575-612 | likewise for model and calibration |
| RemoteControl.Panel.ServeRest | fw/src/app_modbus.c:613-638 | the counter reset and the staged scan look only at the register just written |
| RemoteControl.Panel.GateReject | fw/src/app_modbus.c:293-332 | with the gate closed every command is cleared and only STOP acts |
| RemoteControl.Panel.ApplyWrites | fw/src/app_modbus.c:375-653 | on a table with one pending write the whole chain does exactly what the written register's own rule says, and nothing is left over |
| RemoteControl.Panel.Mirror | fw/src/app_modbus.c:171-289 | the mirror shows every register its projection, keeps staged fields under edit, and leaves the table quiet and in sync |
| RemoteControl.PartsMirror | fw/src/app_modbus.c:171-274 | the three parts of the mirror together cover every register once |
| RemoteControl.MirrorSyncs | fw/src/app_modbus.c:782-786 | after a mirror every compared register shows its setting; mirroring twice is mirroring once |
| RemoteTick.Slave.ApplyConfig | fw/src/app_modbus.c:661-708 | the serial line is owned exactly when configured; taking it over discards the staged edit and blanks and mirrors the tables |
| RemoteTick.Slave.ServeRtu | fw/src/app_modbus.c:780-801 | the serial branch answers from the mirrored table and delivers at most one write to its rule |
| RemoteTick.Slave.ServeTcp | fw/src/app_modbus.c:803-811 | the TCP branch answers every served frame from the mirrored table and delivers at most one write to its rule |
| RemoteTick.OnlyWritesLast | fw/src/app_modbus_tcp.c:195-215 | the write a poll applies is the one its last frame names, and the table differs in that register only |
| RemoteTick.SerialMessage | fw/src/app_modbus.c:780-801 | the write a serial tick accepts, read off the frame |
| RemoteTick.LinkInUseIsSafe | fw/src/app_cfg_stage.c:87-93 | nothing received over a link changes that link's own settings, nor the choice of link |
| RemoteTick.Slave.Pass | fw/src/app_modbus.c:766-815 | from any table without leftover commands and any settings, one tick does exactly watchdog, staging timeout, link transition and the dispatch of the one accepted write; its replies come from the mirrored table, the tables are as served, the unfinished bytes are kept, and no command is left over |
| RemoteSession.SessionIsRun | fw/src/app.c:125-174 | a session of ticks with anything at all between them takes the machine where the run of its events takes it |
| RemoteSession.Session | fw/src/app.c:125-174 | driving the slave through any session of panel edits, run commands, regulator ticks, faults and Modbus ticks follows that specification |
| RemoteSession.WritesArriveOnce | fw/src/app_modbus_tcp.c:160-216 | however a stream of good requests is cut up and polled, and whatever happens between the ticks, its register writes are accepted once each and in order |
| RemoteSession.StopFrameStops | fw/src/app_modbus.c:766-815 | a sealed frame that writes 1 to register 0x1C for the own address ends the tick with no run, whatever the tables, the settings and the gate |
| WeldFsm.AmplitudeInRange | fw/src/app_weld_fsm.c:60-84 | for power 50 to 100 the amplitude is exact, at most 127, and a short weld never raises it |
| WeldFsm.Backstop | fw/src/app_weld_fsm.c:46-57 | the backstop is at most 100 steps per second of limit, with a floor of one second |
| WeldFsm.ActuatorStep | fw/src/app_weld_fsm.c:121-314 | a step keeps solenoid and ultrasonics right and starts them only when off; a stop comes with the ultrasonics off if and only if an abort catches the weld armed but not entered |
| WeldFsm.StopWithoutStart | fw/src/app_weld_fsm.c:121-125 | a four-step run from power-on that ends in such a stop |
| WeldFsm.ActuatorsEverywhere | fw/src/app_weld_fsm.c:243-314 | in every reachable state the solenoid is down exactly from the entry of CYL1 to the entry of CYL2 and the ultrasonics are on exactly in WELD after entry |
| WeldFsm.Cycle.EnterWeld | fw/src/app_weld_fsm.c:87-110 | the modes are latched and the timer armed in one step |
| WeldFsm.Cycle.StepWeld | fw/src/app_weld_fsm.c:159-216 | entry, then the exits in their order |
| WeldFsm.Cycle.Abort | fw/src/app_weld_fsm.c:121-139 | an abort clears every latch |
| WeldFsm.Cycle.Advance | fw/src/app_weld_fsm.c:243-314 | one tick in place is one step of the specification |
| WeldSchedule.DelaySchedule | fw/src/app_weld_fsm.c:142-314 | from the accepted start the DELAY cycle takes exactly 1 + max(T1,2) + max(T2,7) + max(T3,2) + max(T1,2) steps, at a known place after each, with one start, one stop and one done edge at their own steps |
| WeldSchedule.TriggerWaits | fw/src/app_weld_fsm.c:147-152 | in TRIGGER mode CYL1 ends exactly at the first step by which the lower sensor was reached, and only the upper-sensor latch and the timer move while it waits |
| WeldSchedule.TriggerFromStart | fw/src/app_weld_fsm.c:264-272 | from READY with any latches a TRIGGER cycle enters WELD at the first step after CYL1's entry by which some step after the start has seen the lower sensor's edge, and not before |
| WeldSchedule.TriggerSchedule | fw/src/app_weld_fsm.c:142-314 | from the armed weld a timed TRIGGER cycle takes exactly max(T2,7) + max(T3,2) + 2 steps, with its edges at their own steps, whatever the upper sensor says |
| WeldSchedule.TwoStageWeld | fw/src/app_weld_fsm.c:172-189 | a two-stage weld lasts exactly max(time2,2) steps and changes amplitude exactly at step max(time1,2), if that comes |
| WeldSchedule.EnergyWeld | fw/src/app_weld_fsm.c:190-208 | an energy weld ends at the first step that sees the energy reached, or at its backstop with a fault and the cylinder up, never later |
| WeldSchedule.LongestEnergyWeld | fw/src/app_weld_fsm.c:46-57 | an energy weld lasts at most 100 steps per second of limit, one second at least |
| WeldSchedule.WeldIsArmed | fw/src/app_weld_fsm.c:87-110 | what the step out of CYL1 latches and arms, in either mode |
| WeldSchedule.ModesAreLatched | fw/src/app_weld_fsm.c:159-240 | from WELD, HOLD and CYL2 a step does not depend on the mode settings |
| WeldSchedule.ModesDoNotInterfere | fw/src/app_weld_fsm.c:159-240 | two runs whose inputs differ only in the mode settings show the same states and outputs until READY |
| WeldSchedule.NoMemory | fw/src/app_weld_fsm.c:243-314 | from READY with the cylinder up every later output is the one from power-on: no latch of an earlier cycle or abort is seen |
| WeldTrigger.Trigger.Step | fw/src/app_weld_trigger_fsm.c:27-51 | the two-hand pulse, the re-arming, the safety abort and the sensor edges |
| WeldGlue.Press.ScanKeys | fw/src/app_weld.c:131-162 | a start is latched exactly on a two-hand pulse in READY that the arbiter would accept |
| WeldGlue.Press.Drive | fw/src/app_weld.c:209-221 | the cycle's edges become run commands and amplitudes in the source's order |
| WeldGlue.Press.Tick | fw/src/app_weld.c:97-227 | one glue tick: gate, freezes, scan, step, effects |
| WeldGlue.Press.AbortAtOnce | fw/src/app_weld.c:44-66 | the emergency abort outside the gate |
| PressSchedule.StartsExactly | fw/src/app_weld.c:97-162 | the press leaves READY if and only if a due scan on a run page finds both keys newly pressed and nothing in a start's way |
| PressSchedule.DelayCycle | fw/src/app_weld.c:176-202 | driven by its scans, and whatever happens between them, a DELAY cycle is in CYL1, WELD, HOLD and CYL2 for max(delay1,2), max(delay2,7), max(delay3,2) and max(delay1,2) scans |
| PressSchedule.DelayOutputs | fw/src/app_weld.c:204-226 | valve, amplitude and saved counter of such a cycle come at their own scans, with the amplitude given by power and weld time, and nothing else is put out |
| PressWelds.TriggerReaches | fw/src/app_weld_fsm.c:264-272 | a TRIGGER cycle reaches WELD exactly when the lower sensor has gone low since the start scan |
| PressWelds.TriggerTail | fw/src/app_weld.c:176-202 | from there it welds for max(trigger2,7) scans, holds for max(trigger3,2), and is in READY two later |
| PressWelds.TailOutputs | fw/src/app_weld.c:204-226 | and puts out the valve and the saved counter at their own scans |
| PressWelds.EntryPuts | fw/src/app_weld.c:209-212 | the amplitude at the weld's entry, by power and weld time or by the first stage's power |
| PressWelds.TwoStages | fw/src/app_weld_fsm.c:172-189 | a two-stage weld lasts max(time2,2) scans and puts out the second stage's amplitude at scan max(time1,2) |
| PressWelds.EnergyCycle | fw/src/app_weld_fsm.c:190-208 | the first scan that finds the published energy at the configured one ends an energy weld normally; else 100 scans per second of limit end it with the fault and the cylinder up; either releases the run |
| PressWelds.WeldEndReleases | fw/src/app_weld.c:216-218 | leaving the weld, in whatever way, ends whatever run is on |
| PressRules.ScanAborts | fw/src/app_weld.c:164-171 | each abort cause takes a cycle to READY at once, raises the cylinder, releases the weld's run, and puts out nothing else |
| PressRules.EmergencyAborts | fw/src/app_weld.c:44-66 | the emergency abort does the same without a scan |
| PressRules.BeginsExactly | fw/src/app_weld.c:209-212 | over the press's interleavings, exactly which events take the machine from no run to one |
| PressRules.RearmsExactly | fw/src/app_weld_trigger_fsm.c:27-51 | exactly what uses up and what restores the two-hand permission |
| WeldSafety.CycleRunMeansWelding | fw/src/app_weld.c:205-218 | over every interleaving a run in the cycle's name means WELD after entry with the solenoid down, and the valve was last driven to the cycle's level |
| WeldSafety.AbortBeforeEntryStopsAnyRun | fw/src/app_weld.c:216-218 | an abort in that step ends whatever run is on, whoever owns it |
| WeldSafety.StartAtWeldEntry | fw/src/app_weld.c:209-212 | the weld is entered in any case; its run becomes the cycle's if and only if the arbiter would take a start at that moment, and any other run goes on |
| WeldSafety.CycleGetsItsRun | fw/src/app_weld.c:155-162 | if nothing else was started and no fault raised since the cycle began, and neither seek nor reset is on at the entry, the run is the cycle's |
| WeldSafety.CycleStartsOnlyGuarded | fw/src/app_weld.c:155-162 | the cycle leaves READY if and only if a processed scan saw both keys pressed, re-armed, and a start allowed |
| WeldSafety.CylinderNeedsBothHands | fw/src/app_weld_trigger_fsm.c:40-44 | with the safety setting on, any processed tick that ends in CYL1 sampled both keys pressed |
| WeldSafety.TwoHandRearm | fw/src/app_weld_trigger_fsm.c:29-38 | between any two cycle starts some processed scan found both keys released in READY |
| WeldSafety.NeverFasterThanTheClock | fw/src/app_weld.c:99-108 | the cycle is never stepped faster than once per 10 ms of real time, and its reference never lags by more than 100 ms |
| WeldSafety.KeepsPace | fw/src/app_weld.c:99-108 | called at least every 10 ms, the cycle is stepped exactly once per 10 ms since the start |
| Fram.Chip.ReadU32 | fw/drivers/fram.c:28-37 | big-endian, and a failed read leaves its output untouched |
| Fram.Chip.WriteU32 | fw/drivers/fram.c:55-63 | what is written reads back, and nothing else changes |
| Fram.Chip.WriteU16 | fw/drivers/fram.c:46-53 | what is written reads back, and nothing else changes |
| ConfigStore.SaveAll | fw/src/app_config.c:50-85 | after a save every field of the map holds the configuration's value: no field overwrites another; the flag and the rest of the page are untouched |
| ConfigStore.Load | fw/src/app_config.c:88-151 | an unreadable flag leaves the page alone and gives defaults; a blank page is initialised; otherwise the result is the number of failed fields |
| ConfigStore.LoadEnergy | fw/src/app_config.c:124-131 | an energy limit above the cap is capped in memory and written back |
| ConfigStore.FailuresAdd | fw/src/app_config.c:109-150 | the failures counted group by group are the failing addresses among all fields, each once |
| ConfigStore.LoadAfterSave | fw/src/app_config.c:109-149 | whatever reads fail, a load after a save gives each failed field its default and every other its saved value, normalised |
| ConfigStore.RoundTrip | fw/src/app_config.c:50-151 | without failures a saved configuration comes back normalised, and unchanged if and only if it is in range |
| ConfigStore.NormalIsStable | fw/src/app_config.c:119-141 | normalising is idempotent, and the factory defaults are normal |

## Left out

- HAL, DMA, GPIO, SPI, I2C, clock and interrupt code: plumbing; the DMA is its write position, the FRAM an array with fallible reads, sensors and keys are inputs.
- The W5500 socket machine, DHCP and link bring-up (`app_eth.c`): the vendor library is not part of this model. A TCP poll is given the connection state and the bytes on offer; a short or failed `recv` is an offer of fewer bytes.
- LCD rendering, page navigation, string formatting and the LCD echo writes of the remote path: panel activity is any change of the configuration and any run command between ticks.
- The remote-enable gate's own timing: each tick is given the gate's state.
- The seek/reset, overload, emergency-stop, horn, buzzer and fault-alarm machines: their outputs are free inputs to the start guard and the status word.
- Channel 0, the output level tables and the trace output of `app_reg_tick`: they feed neither the runs nor the published measurement.
- `app_weld_request_start`: it has no caller; the start latch it would set is modelled.
- The sensor on/off text of `app_weld_tick` and the monitor log lines: display only.
- Claims about the swallowed panel press: the flag is modelled, but a release that stops another source's run does not clear it, so nothing is promised about it.
- The unreachable default branches of `weld_fsm_step` and `parser_step`: the states are datatypes.
- Failing FRAM writes: a write is reliable, as the source ignores its result.
- Usart6Ring.Ring.Store: keeps less than one turn of the ring outstanding; the source itself notes that a full turn between two polls goes unseen.
- RemoteTick.Slave.Pass: within one tick the clock is read once for the watchdog, once for the staging timeout and once for the message; the register write of a TCP poll is applied after the poll has moved its tail and filled its replies, which neither reads nor changes anything the write touches.
- RemoteControl.Panel.ApplyWrites: the calls into other modules are an ordered list of effects (seek/reset request, amplitude pot, save, address hook, horn mode), not their own behaviour.
- PressSchedule.DelayOutputs: states the amplitude for powers of 50 to 100, the range every clamp enforces (likewise PressWelds.TailOutputs and PressWelds.EntryPuts).
- PressSchedule.DelayCycle: the settings stay the same from the start to the scan in question; edits in mid-cycle are covered by the step lemmas of WeldSchedule only.
- Crc16.Compute: the buffer is a sequence rather than an address and a length.
- Regulator.Arbiter.Publish: the output-enable hook called on a run edge is pin control and is not an effect of the model; the edge itself is the flag `outOn`.
- Regulator.Arbiter.Tick: without channel 0, the output level and the trace output.
- Dgus.Parser.Take: the finished frame is returned as a value instead of being copied byte by byte into the caller's record.
