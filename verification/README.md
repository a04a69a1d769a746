# Verified model of the charging and diagnostics simulator

A Dafny model of the protocol cores of this repository, with proofs of what they
keep over whole runs. Each module follows one part of the program.

| module | part of the system |
|---|---|
| `DinMessages`, `DinSecc`, `DinSeccSafety`, `DinSeccEnds`, `DinSeccAnswers` | the charging station (SECC) of DIN SPEC 70121, its safety, its ends and its answers |
| `EvController`, `DinEvcc`, `DinEvccBounds`, `DinEvccReactions` | the simulated vehicle (EVCC), the bounds on its sessions and its reactions |
| `DinSession`, `DinSessionEnds`, `DinPlay` | both sides with the message in flight, and the two objects playing a session |
| `ReceiveLoop`, `DinNotify` | the receive loop of a communication session, and what it reports of a DIN session |
| `Iso2Evcc`, `Iso2EvccOrder` | the vehicle of ISO 15118-2 from Authorization on |
| `SdpDiscovery`, `SapNegotiation` | finding the station and agreeing on a protocol |
| `ChargingSchedule` | the offered schedule and the profile derived from it |
| `IsoTp`, `IsoTpFrames`, `UdsEcu`, `UdsEcuRuns`, `UdsEcuResponses`, `UdsEcuAnswers` | the simulated ECU on the CAN bus |
| `TaskEngine`, `PeriodicScheduler` | the threads of the CAN task engine and their timing |
| `DoipCodec`, `DoipUds`, `DoipSession` | the DoIP server |

Code that updates an object in place is a class here, and each of its methods is
proved to do what a step function on values says. The theorems are about runs of
those step functions, for all inputs and all choices of the surroundings. What
the surroundings decide (controller readings, clocks, random bytes, arriving
frames and datagrams, thread scheduling) is a parameter without restriction
unless a lemma says otherwise.

`dafny verify dfyconfig.toml` checks the project.

## Where the code is followed rather than its documentation

- The vehicle's list of protocols is documented as a list of preferences, but it
  is read through a set (src/iso15118/iso15118/shared/utils.py:16-38), so its
  order is arbitrary. The negotiation is proved for every order.
- The station's check of a schedule is documented to tolerate one that goes
  beyond the departure time and to turn down one that falls short; the code does
  the opposite (`ChargingSchedule.AcceptedExactlyUpToDeparture`,
  `ChargingSchedule.CheckIsTurnedAround`).
- Building the parameter of a PowerDeliveryReq consumes a charging cycle, so a
  vehicle configured for one cycle falls out of step with the station
  (`DinSessionEnds.InStepExactlyWhenItCanCharge`).
- A failed protocol negotiation is reported with a code that does not contain
  "FAILED". The vehicle ends the session all the same, because no schema id comes
  with it (`SapNegotiation.BothSidesAgree`).
- A stop that the station asks for with a metering receipt, or over TLS together
  with the request for one, is overlooked by the vehicle
  (`Iso2Evcc.StopIsFollowedExactly`).
- A second stop of the task engine without a resume in between can never be
  undone (`TaskEngine.StatusFollowsCommands`). A resume can miss a thread that is
  just finishing (`TaskEngine.ResumeCanMissAThread`); that slot is idle until the
  next stop and resume (`TaskEngine.GoesOnExactlyUnlessLeaving`,
  `TaskEngine.MissedSlotRecovers`).
- HLC charging stays on when a session ends in the charging loop by anything but
  a request to stop charging (`DinSeccEnds.HlcLeftOnExactly`); it is tied to
  CurrentDemand while the session lives.
- After a stop has opened the contactors, a new PowerDeliveryReq starts charging
  again without any of the checks (`DinSeccEnds.ChargesAgainUnchecked`).
- A vehicle that gives up can repeat a request to a station that has gone on
  (`DinSession.RepeatIsRejectedExactly`).
- The ECU's first frame has twelve bits for the length, so a VIN of more than
  4092 characters cannot be delivered (`UdsEcuResponses.TesterGetsWhatItReleases`).
- The DoIP server acknowledges with the addresses of the request as they are;
  only the diagnostic reply swaps them.

## Model

| member | source | states |
|---|---|---|
| `DinSecc.SeccSession.CheckMsg` | src/iso15118/iso15118/secc/states/secc_state.py:246-289 | the loop over expected kinds accepts a request exactly when it is the first expected kind, or any expected one once the first is no longer insisted on, and its session matches; otherwise the session is left stopping with the matching code |
| `DinSecc.SeccSession.StopStateMachine` | src/iso15118/iso15118/secc/states/secc_state.py:291-369 | the registered failure response of the request kind is prepared and the session heads for termination; a kind without one crashes the session |
| `DinSecc.SeccSession.CreateNextMessage` | src/iso15118/iso15118/shared/states.py:178-367 | next state and response are set together |
| `DinSecc.SeccSession.DoSessionSetup` | src/iso15118/iso15118/secc/states/din_spec_states.py:89-143 | a new or joined session is confirmed and ServiceDiscovery comes next; the whole new state is the step that the run theorems are about, as in the rows below |
| `DinSecc.SeccSession.DoServiceDiscovery` | src/iso15118/iso15118/secc/states/din_spec_states.py:161-226 | the first energy mode is offered; without one the session crashes |
| `DinSecc.SeccSession.DoServicePaymentSelection` | src/iso15118/iso15118/secc/states/din_spec_states.py:240-288 | wrong services or payment option end the session with their own codes |
| `DinSecc.SeccSession.DoContractAuthentication` | src/iso15118/iso15118/secc/states/din_spec_states.py:302-340 | Ongoing in place until authorization is accepted |
| `DinSecc.SeccSession.DoChargeParameterDiscovery` | src/iso15118/iso15118/secc/states/din_spec_states.py:354-428 | a wrong energy mode is refused; Ongoing in place until a schedule is there |
| `DinSecc.SeccSession.DoCableCheck` | src/iso15118/iso15118/secc/states/din_spec_states.py:443-543 | the first request starts the check; contactors must be seen closed before isolation is read, which takes a later request |
| `DinSecc.SeccSession.DoPreCharge` | src/iso15118/iso15118/secc/states/din_spec_states.py:558-659 | the precharge command is given only within 2 A present and 2 A asked; a PowerDeliveryReq is handed over once the first PreChargeReq has passed |
| `DinSecc.SeccSession.DoPowerDelivery` | src/iso15118/iso15118/secc/states/din_spec_states.py:679-774 | HLC is switched on or off with the request, contactors are opened on a stop, later requests are handed over; a state that has processed a stop still takes a new PowerDeliveryReq |
| `DinSecc.SeccSession.DoCurrentDemand` | src/iso15118/iso15118/secc/states/din_spec_states.py:788-868 | each demand gives a charging command with its own voltage and current; a PowerDeliveryReq is handed over |
| `DinSecc.SeccSession.DoWeldingDetection` | src/iso15118/iso15118/secc/states/din_spec_states.py:882-922 | any number of requests are answered in place; a SessionStopReq is handed over |
| `DinSecc.SeccSession.DoSessionStop` | src/iso15118/iso15118/secc/states/din_spec_states.py:933-959 | the final response and termination |
| `DinSecc.SeccSession.Turn` | src/iso15118/iso15118/shared/comm_session.py:503-516 | processing, sending and changing state in the order of the receive loop; what is sent is the specified answer |
| `DinSecc.SeccSession.EndRead` | src/iso15118/iso15118/shared/comm_session.py:461-500 | a read that times out or finds the connection closed ends a live session and changes nothing else |
| `DinSeccSafety.NoCurrentBeforeSafetyChecks` | src/iso15118/iso15118/secc/states/din_spec_states.py:317-827 | against any requests and any environment, every charging command outside precharging has earlier, strictly ordered log positions for authorization, schedule, cable check, contactors, a second CableCheckReq, isolation, precharge within 2 A, and a PowerDeliveryReq ready to charge with HLC on |
| `DinSeccSafety.HlcFollowsCurrentDemand` | src/iso15118/iso15118/secc/states/din_spec_states.py:690-903 | in every run that starts with HLC charging off, a live session has it on exactly in CurrentDemand |
| `DinSeccSafety.HlcStep` | src/iso15118/iso15118/secc/states/din_spec_states.py:690-903 | every request keeps that HLC charging is on exactly in CurrentDemand |
| `DinSeccEnds.HlcAtTheEnd` | src/iso15118/iso15118/secc/states/din_spec_states.py:690-868 | a request that ends a live session leaves HLC charging on if and only if it arrived in CurrentDemand and was no request to stop charging taken up there |
| `DinSeccEnds.HlcLeftOnExactly` | src/iso15118/iso15118/secc/states/din_spec_states.py:690-868 | the same for every run that starts with HLC charging off and has ended |
| `DinSeccEnds.HlcCanBeLeftOn` | src/iso15118/iso15118/secc/states/din_spec_states.py:828-868 | every station with an energy mode has a run from its start that ends with HLC charging on |
| `DinSeccEnds.ChargesAgainUnchecked` | src/iso15118/iso15118/secc/states/din_spec_states.py:690-868 | in every run, once contactors were read open no contactor, isolation or current reading and no precharge follows; the live session is in CurrentDemand exactly while the last PowerDeliveryReq since then was ready, and commands are given only then |
| `DinSeccEnds.CommandWithOpenContactors` | src/iso15118/iso15118/secc/states/din_spec_states.py:679-827 | every station with an energy mode has a run that gives any charging command after contactors were read open, with no check in between |
| `DinSeccSafety.AnsweredExactly` | src/iso15118/iso15118/secc/states/secc_state.py:291-369 | a live session answers a request if and only if its kind is known and it is not an accepted PowerDeliveryReq without parameter nor an accepted ServiceDiscoveryReq at a station without energy modes, and crashes otherwise; the answer is in kind and ends the session exactly when it is negative or answers a SessionStopReq |
| `DinSeccSafety.RunEarned` | src/iso15118/iso15118/secc/states/din_spec_states.py:317-827 | every run keeps that the milestones certain in the current state have been reached, and every command so far was earned |
| `DinSeccAnswers.EventsExactly` | src/iso15118/iso15118/secc/states/din_spec_states.py:302-959 | the log of a live session grows by the request and, if it is taken up, by exactly the readings, commands and switches that belong to that request, told case by case from request and environment |
| `DinSeccAnswers.CommandsCarryTheRequest` | src/iso15118/iso15118/secc/states/din_spec_states.py:620-827 | in every run each charging command carries voltage and current of the last request received, a CurrentDemandReq or, for precharging, a PreChargeReq |
| `DinSeccAnswers.OneCommandPerDemand` | src/iso15118/iso15118/secc/states/din_spec_states.py:788-827 | in every run there are exactly as many charging commands outside precharging as CurrentDemandReq were taken up |
| `DinSeccAnswers.AnswersAreRight` | src/iso15118/iso15118/secc/states/din_spec_states.py:89-959 | every answerable request of a live session gets the response code of the first thing that is wrong with it, with the contents the environment dictates, in the session it belongs to, and leads where that code says |
| `EvController.SimController.constructor` | src/iso15118/iso15118/evcc/controller/simulator.py:121-129 | counters, SoC and increment of a fresh controller |
| `EvController.SimController.ContinueCharging` | src/iso15118/iso15118/evcc/controller/simulator.py:539-551 | the answer and the new counters: a cycle is consumed and SoC raised exactly when charging can go on |
| `EvController.SimController.IsPrecharged` | src/iso15118/iso15118/evcc/controller/simulator.py:566-577 | precharged on the sixth question or at equal voltage; otherwise one more question is counted |
| `EvController.SimController.WeldingDetectionHasFinished` | src/iso15118/iso15118/evcc/controller/simulator.py:606-610 | finished on the fourth question |
| `EvController.SimController.GetPowerDeliveryParameter` | src/iso15118/iso15118/evcc/controller/simulator.py:584-589 | building the parameter consumes a charging cycle |
| `DinEvcc.EvccSession.CheckMsg` | src/iso15118/iso15118/evcc/states/evcc_state.py:186-234 | a response is accepted exactly when it has the expected kind, a positive code and the session of the vehicle |
| `DinEvcc.EvccSession.StopStateMachine` | src/iso15118/iso15118/evcc/states/evcc_state.py:236-249 | only the next state changes, so a prepared request stays prepared |
| `DinEvcc.EvccSession.DoServiceDiscovery` | src/iso15118/iso15118/evcc/states/din_spec_states.py:131-227 | only an offer with external payment and the wanted energy mode is taken up; the whole new state is the step that the run theorems are about, as in the rows below |
| `DinEvcc.EvccSession.DoContractAuthentication` | src/iso15118/iso15118/evcc/states/din_spec_states.py:277-324 | Ongoing repeats the request until the timer, started by the first such answer, is over |
| `DinEvcc.EvccSession.DoChargeParameterDiscovery` | src/iso15118/iso15118/evcc/states/din_spec_states.py:360-424 | the same for the charge parameters; a finished answer without schedule ends the session |
| `DinEvcc.EvccSession.DoCableCheck` | src/iso15118/iso15118/evcc/states/din_spec_states.py:461-530 | a finished answer must report a ready EVSE and valid isolation |
| `DinEvcc.EvccSession.DoPreCharge` | src/iso15118/iso15118/evcc/states/din_spec_states.py:547-613 | another PreChargeReq until the controller is satisfied or the timeout is over; then a PowerDeliveryReq, which consumes a cycle |
| `DinEvcc.EvccSession.DoPowerDelivery` | src/iso15118/iso15118/evcc/states/din_spec_states.py:624-682 | charging if the controller, which consumes a cycle, continues; else welding detection |
| `DinEvcc.EvccSession.DoStopCharging` | src/iso15118/iso15118/evcc/states/din_spec_states.py:735-751 | a PowerDeliveryReq to stop, its parameter consuming a cycle |
| `DinEvcc.EvccSession.DoCurrentDemand` | src/iso15118/iso15118/evcc/states/din_spec_states.py:694-733 | another demand while the EVSE is ready and the controller continues, else the stop; when which of them is sent is `DinEvccReactions.DemandsExactlyWhileReady` |
| `DinEvcc.EvccSession.DoWeldingDetection` | src/iso15118/iso15118/evcc/states/din_spec_states.py:789-830 | another request from the same state, which keeps the old message, until the controller is satisfied |
| `DinEvcc.EvccSession.ProcessMessage` | src/iso15118/iso15118/evcc/states/din_spec_states.py:91-865 | the state named by the phase processes the response |
| `DinEvcc.EvccSession.Turn` | src/iso15118/iso15118/shared/comm_session.py:503-516 | what is sent, and the new state, in the order of the receive loop |
| `DinEvcc.EvccSession.EndRead` | src/iso15118/iso15118/shared/comm_session.py:461-500 | a read that times out or finds the connection closed ends a live session as a failure |
| `DinEvcc.EvccSession.CreateNextMessage` | src/iso15118/iso15118/shared/states.py:178-262 | next state, request and the time its answer is waited for are set together |
| `DinEvccBounds.TerminationResendsAtMostOnce` | src/iso15118/iso15118/evcc/states/evcc_state.py:236-249 | the turn that ends a session sends nothing exactly when its state was freshly entered, and else repeats the last request; nothing is sent afterwards |
| `DinEvccBounds.FreshExactlyAfterMoving` | src/iso15118/iso15118/shared/comm_session.py:254-275 | a live state is freshly entered exactly when the turn moved on |
| `DinEvccBounds.FreshVehicleIsBounded` | src/iso15118/iso15118/evcc/states/din_spec_states.py:564-830 | a fresh vehicle with c cycles sends at most c - 1 CurrentDemandReq, 6 PreChargeReq and 4 WeldingDetectionReq, whatever it is answered |
| `DinEvccBounds.SentBounded` | src/iso15118/iso15118/evcc/controller/simulator.py:539-610 | from any state the requests of each kind still to come are bounded by what the counters leave |
| `DinEvccBounds.SocOnlyRises` | src/iso15118/iso15118/evcc/controller/simulator.py:121-551 | SoC starts at 10, never falls and never exceeds 100 |
| `DinEvccBounds.FreshVehicleEnds` | src/iso15118/iso15118/evcc/states/din_spec_states.py:564-830 | the session has ended after 18 + c answers that were not Ongoing |
| `DinEvccBounds.TurnMakesProgress` | src/iso15118/iso15118/evcc/states/din_spec_states.py:564-830 | every answer that is not Ongoing lowers a measure, and no answer raises it |
| `DinEvccReactions.ReactsExactly` | src/iso15118/iso15118/evcc/states/din_spec_states.py:91-865 | a response makes the vehicle give up, crash, finish or ask for exactly the stated request, in the stated state, with the stated seconds to wait, told without the state functions |
| `DinEvccReactions.TimerAndControllerExactly` | src/iso15118/iso15118/evcc/states/din_spec_states.py:277-830 | timer and counters after each response that leads to another request |
| `DinEvccReactions.DemandsExactlyWhileReady` | src/iso15118/iso15118/evcc/states/din_spec_states.py:694-751 | in every run, an accepted CurrentDemandRes is followed by a CurrentDemandReq if and only if the EVSE is ready and the controller has cycles left, SoC below 100 and is not completed; otherwise PowerDeliveryReq to stop goes out and no CurrentDemandReq ever follows |
| `DinEvccReactions.SocFollowsTheCycles` | src/iso15118/iso15118/evcc/controller/simulator.py:539-551 | a fresh controller for c cycles says yes as long as fewer than c questions were answered so and the battery is not full, and each yes raises SoC from 10 by 100 / c percent, up to 100 |
| `DinSession.NeverOutOfStep` | src/iso15118/iso15118/secc/states/secc_state.py:246-289 | for every run of both sides, under any environment and timing, each request of the live vehicle passes the kind and session checks and each negative answer is the plain FAILED of an EVSE fault |
| `DinSession.StepKeepsInv` | src/iso15118/iso15118/shared/comm_session.py:254-275 | every step of either side keeps the invariant relating both states and the message in flight |
| `DinSession.FreshCanCharge` | src/iso15118/iso15118/evcc/controller/simulator.py:584-589 | a fresh controller can be asked to continue twice exactly when it is configured for at least two cycles |
| `DinSession.RepeatIsRejectedExactly` | src/iso15118/iso15118/evcc/states/evcc_state.py:236-249 | in every run, a vehicle that gives up while the station lives sends nothing if its state was freshly entered; otherwise it repeats its last request, which is turned down if and only if the answer given up on was a finished ContractAuthenticationRes or CableCheckRes |
| `DinSession.RunHolds` | src/iso15118/iso15118/shared/states.py:88-145 | in every run a request still held by a live vehicle belongs to one of the six states that can stay in place, and to the current session |
| `DinSession.RunWaits` | src/iso15118/iso15118/evcc/states/din_spec_states.py:387-424 | in every run a live vehicle waits 0.25 s for a CurrentDemandRes, 60 s after repeating its ChargeParameterDiscoveryReq and 2 s for any other answer |
| `DinSessionEnds.LateAuthenticationIsRepeated` | src/iso15118/iso15118/evcc/states/din_spec_states.py:296-324 | a run with an Ongoing answer every two seconds up to time 61 and the finished authorization at 62, after which the request is repeated to a station that has gone on |
| `DinSessionEnds.DoubtfulCableCheckIsRepeated` | src/iso15118/iso15118/evcc/states/din_spec_states.py:480-512 | a run in which a cable check finishes without valid isolation and the request is repeated to a station that has gone on |
| `DinSessionEnds.InStepExactlyWhenItCanCharge` | src/iso15118/iso15118/evcc/controller/simulator.py:539-589 | both sides stay in step in every run if and only if the controller can be asked to continue twice |
| `DinSessionEnds.SessionCompletesExactly` | src/iso15118/iso15118/shared/comm_session.py:456-556 | whatever the EVSE reports and whenever messages arrive, a session with c >= 2 cycles is over after 2c + 36 turns and two more for each Ongoing answer, and it has then completed on both sides if and only if every message arrived before its reader timed out, no EVSE fault was reported and no timer of the vehicle had run out |
| `DinSessionEnds.TurnDecides` | src/iso15118/iso15118/shared/comm_session.py:456-516 | a turn with a timely message, no fault and no timer run out keeps a session regular, and any other dooms it |
| `DinPlay.PlaySession` | src/iso15118/iso15118/shared/comm_session.py:456-516 | a whole session played by the two session objects, read timeouts included: every charging command earned, SoC within 10..100, and completion exactly without fault, expired timer and late message |
| `DinPlay.PartiesRun` | src/iso15118/iso15118/shared/comm_session.py:456-516 | each party of a joint run is in a run of its own on the messages that reached it in time, or has lost the connection |
| `ReceiveLoop.OneNotification` | src/iso15118/iso15118/shared/comm_session.py:456-556 | a loop finishes with the first event that does not let it go on and then has queued exactly one notification, successful exactly for a regular end; a loop that goes on has queued none |
| `ReceiveLoop.CommunicationSession.RcvLoop` | src/iso15118/iso15118/shared/comm_session.py:456-556 | the loop queues exactly what the specification of the run says |
| `DinNotify.SuccessIsReportedExactly` | src/iso15118/iso15118/shared/comm_session.py:456-556 | in every DIN session the loop of the vehicle has queued nothing while the vehicle lives and one notification once it has ended, which reports success if and only if the session has completed |
| `DinNotify.LoopMirrorsVehicle` | src/iso15118/iso15118/shared/comm_session.py:456-556 | in every joint run of any vehicle the loop has finished exactly when the vehicle has ended, with success exactly when it ended so |
| `DinNotify.SuccessExactly` | src/iso15118/iso15118/evcc/states/din_spec_states.py:842-865 | a turn ends in success exactly when a positive answer reaches SessionStop in time |
| `IsoTp.RoundTrip` | task/task_uds_echo.py:173-195 | the frames of a payload make any receiver deliver exactly it if and only if it has at most 4095 bytes |
| `IsoTp.DeliveredWithTheLastFrame` | task/task_uds_echo.py:113-156 | a payload of 8 to 4095 bytes is delivered with the last of its frames and not before, whatever the receiver was doing |
| `IsoTp.SequenceNumbers` | task/task_uds_echo.py:186-195 | the k-th consecutive frame carries 0x20 + k mod 16 and has eight bytes |
| `IsoTp.SegmentsAreSegments` | task/task_uds_echo.py:173-195 | a payload takes 1 + n / 7 frames of eight bytes, all of the two segment types |
| `IsoTp.DeliveriesAreShort` | task/task_uds_echo.py:113-156 | nothing longer than 4095 bytes is ever delivered, and a pending buffer is shorter than its announced length |
| `IsoTpFrames.FramesOnTheBus` | task/task_uds_echo.py:173-195 | the bytes of every frame of a long payload: the length in twelve bits with the first six bytes, then a running number modulo 16 with the next seven each |
| `IsoTpFrames.CollectsExactly` | task/task_uds_echo.py:113-156 | for any frames, the receiver collects exactly while something that the last first frame announced has not arrived |
| `IsoTpFrames.DeliversExactly` | task/task_uds_echo.py:113-156 | for any frames, a frame completes a payload if and only if with it, and not before, all that was announced, at least two bytes, has arrived; which payload that is |
| `UdsEcu.Answer` | task/task_uds_echo.py:206-441 | everything but session control in silent mode is answered, by the positive or negative response of the requested service, of bounded length; its contents are in the rows of `UdsEcuAnswers` |
| `UdsEcu.UdsEchoTask.IsotpSend` | task/task_uds_echo.py:173-184 | one frame, or a first frame with the rest buffered |
| `UdsEcu.UdsEchoTask.PushConsecutiveFrames` | task/task_uds_echo.py:186-195 | the loop sends exactly the consecutive frames of the buffer and empties it |
| `UdsEcu.UdsEchoTask.HandleDiagnosticSessionControl` | task/task_uds_echo.py:311-321 | answer and new session |
| `UdsEcu.UdsEchoTask.HandleEcuReset` | task/task_uds_echo.py:323-333 | answer, and the reset of session and security access for kinds 1 to 3 |
| `UdsEcu.UdsEchoTask.HandleSecurityAccess` | task/task_uds_echo.py:389-401 | the answer, with the seed for an odd sub-function, and unlocking by an even one |
| `UdsEcu.UdsEchoTask.DispatchRequest` | task/task_uds_echo.py:206-237 | the handler of the service runs |
| `UdsEcu.UdsEchoTask.DispatchReassembled` | task/task_uds_echo.py:140-156 | reception is cleared and a payload of at least two bytes dispatched in single-frame shape |
| `UdsEcu.UdsEchoTask.OnMessageReceived` | task/task_uds_echo.py:93-139 | the whole new state for any frame of any length and identifier |
| `UdsEcuRuns.ReassemblyRefinesFeed` | task/task_uds_echo.py:93-156 | under arbitrary traffic the requests reassembled are those a plain receiver makes of the monitored segments alone |
| `UdsEcuRuns.InterleavedTransfer` | task/task_uds_echo.py:93-156 | after any run, a payload of 8 to 4095 bytes sent with other traffic interleaved is dispatched exactly once, with its last segment and not earlier |
| `UdsEcuRuns.PendingIsShort` | task/task_uds_echo.py:113-156 | in every run a pending buffer is shorter than the announced length of at most 4095 |
| `UdsEcuRuns.StateIsDescribedByRequests` | task/task_uds_echo.py:311-401 | session and security access are those a description of the request log without running it says: last selection since the last reset, and some key since the last reset |
| `UdsEcuRuns.SessionIsKnown` | task/task_uds_echo.py:311-333 | the session is always 1 to 4, and 1 in silent mode |
| `UdsEcuResponses.BufferHoldsTheLastLongResponse` | task/task_uds_echo.py:98-201 | the transmit buffer is empty or exactly the unsent tail of the most recent long response, in every run |
| `UdsEcuResponses.FlowControlCompletesTheResponse` | task/task_uds_echo.py:98-195 | a flow control that finds bytes waiting emits the frames that complete the last first frame to the segments of the last long response |
| `UdsEcuResponses.TesterGetsWhatItReleases` | task/task_uds_echo.py:93-201 | in every run a tester reassembles exactly the long responses it released in time, in order, if and only if the VIN has at most 4092 characters |
| `UdsEcuResponses.VinIsDelivered` | task/task_uds_echo.py:285-301 | after any run, asking for the VIN by either service gives the tester the VIN behind its header: in one frame sent at once if it fits, and otherwise after flow control as exactly one more reassembled payload |
| `UdsEcuAnswers.RefusedExactly` | task/task_uds_echo.py:206-440 | for every request, which negative code it gets under which condition on length, range and service, and a positive answer in every other case |
| `UdsEcuAnswers.SeedIsSent` | task/task_uds_echo.py:389-401 | an odd sub-function of 0x27 is answered with itself and the seed drawn, an even one with itself alone |
| `UdsEcuAnswers.SubFunctionIsRepeated` | task/task_uds_echo.py:239-440 | every positive answer to a service with sub-function or parameter identifier repeats it in byte 1 |
| `UdsEcuAnswers.IdentifierIsRepeated` | task/task_uds_echo.py:359-428 | positive answers to 0x22, 0x2E and 0x31 repeat the two bytes of the request in order, those to 0x2E nothing else |
| `UdsEcuAnswers.MaskIsRepeated` | task/task_uds_echo.py:339-357 | a request for trouble codes by mask gets its mask back |
| `UdsEcuAnswers.DispatchedExactly` | task/task_uds_echo.py:93-156 | in every run a frame adds exactly one request where it is a complete single frame or completes a transfer, and none otherwise |
| `UdsEcuAnswers.AnsweredWithItsSeed` | task/task_uds_echo.py:93-237 | in every run the frame that makes a request adds the request, its answer with the seed drawn for it and the first frame of that answer; other frames add no response |
| `UdsEcuAnswers.EveryRequestIsAnswered` | task/task_uds_echo.py:206-237 | in every run each request is followed at once by its answer, session control in silent mode excepted |
| `SdpDiscovery.RequestsExactly` | src/iso15118/iso15118/evcc/comm_session_handler.py:383-440 | over the whole life of the handler n requests can be sent if and only if n <= 50 * cycles * (restarts + 1), or restarts are unlimited and there is a cycle |
| `SdpDiscovery.RequestsAreBounded` | src/iso15118/iso15118/evcc/comm_session_handler.py:383-440 | the bound in every run, by the requests still left |
| `SdpDiscovery.RunIsExclusive` | src/iso15118/iso15118/evcc/comm_session_handler.py:566-609 | exactly one of pending, running session and finished holds in every run; a stop notification always finds its session |
| `SdpDiscovery.StepIsExclusive` | src/iso15118/iso15118/evcc/comm_session_handler.py:566-609 | every step keeps that, and what is finished stays finished |
| `SdpDiscovery.SessionBeginsExactly` | src/iso15118/iso15118/evcc/comm_session_handler.py:514-563 | in every run a step begins a session if and only if the loop takes up an SDP response, the connection opens, TLS is supported where the station asks for it and asked for where it is enforced; it is secured as the station asked |
| `SdpDiscovery.SecurityIsKept` | src/iso15118/iso15118/evcc/comm_session_handler.py:534-543 | in no run is a session unsecured where TLS is enforced, or secured where TLS is not supported |
| `SdpDiscovery.SessionEndsExactly` | src/iso15118/iso15118/evcc/comm_session_handler.py:566-609 | a running session ends by its own decision alone and keeps its security until then |
| `SdpDiscovery.RequestSentExactly` | src/iso15118/iso15118/evcc/comm_session_handler.py:383-440 | in every run a step sends a request if and only if it takes up a timeout with a request left in the cycle, or a failure with a cycle left, or either while the setup may begin again |
| `SdpDiscovery.LoopEndsExactly` | src/iso15118/iso15118/evcc/comm_session_handler.py:485-609 | in every run, which notifications end the loop; a restart that fails at once cannot come about |
| `SdpDiscovery.CommunicationSessionHandler.Restart` | src/iso15118/iso15118/evcc/comm_session_handler.py:383-411 | counters, request and failure of one restart |
| `SdpDiscovery.CommunicationSessionHandler.RestartAfterFailure` | src/iso15118/iso15118/evcc/comm_session_handler.py:413-440 | whether and how the setup is started again |
| `SdpDiscovery.CommunicationSessionHandler.ProcessIncomingUdpPacket` | src/iso15118/iso15118/evcc/comm_session_handler.py:485-563 | what each kind of datagram leads to; a response begins a session exactly as `SdpDiscovery.SessionBeginsExactly` says |
| `SdpDiscovery.CommunicationSessionHandler.GetFromRcvQueue` | src/iso15118/iso15118/evcc/comm_session_handler.py:573-609 | one turn of the queue loop |
| `SdpDiscovery.CommunicationSessionHandler.StartSessionHandler` | src/iso15118/iso15118/evcc/comm_session_handler.py:301-316 | the first request, or the end if there is no cycle |
| `SapNegotiation.BothSidesAgree` | src/iso15118/iso15118/secc/states/sap_states.py:62-146 | for all lists both sides end with the first protocol offered that the station supports, in the matching state, or both head for termination |
| `SapNegotiation.StationTakesTheBest` | src/iso15118/iso15118/secc/states/sap_states.py:62-129 | for any request, sorting and searching takes the acceptable entry of least priority number, the first of equals, and nothing exactly when none is acceptable |
| `SapNegotiation.AcceptableExactly` | src/iso15118/iso15118/secc/states/sap_states.py:66-129 | an entry is acceptable exactly when it has the namespace and the major version of a supported protocol |
| `SapNegotiation.StationAnswersExactly` | src/iso15118/iso15118/secc/states/sap_states.py:62-146 | for any request the response names the schema of the best entry, success or minor deviation by its minor version, and the next state follows its protocol; without one the negotiation fails |
| `SapNegotiation.VehicleFollowsTheSchema` | src/iso15118/iso15118/evcc/states/sap_states.py:107-173 | for any response the vehicle takes up the offer at the place the schema id counts to, and heads for termination where there is none or the code contains FAILED |
| `SapNegotiation.SortIsOrdered` | src/iso15118/iso15118/secc/states/sap_states.py:62-62 | the sorted list is ordered and a permutation |
| `SapNegotiation.NoCodeSaysFailed` | src/iso15118/iso15118/shared/messages/app_protocol.py:19-22 | no response code contains FAILED, not even that of a failed negotiation |
| `SapNegotiation.DinUnderTlsExactly` | src/iso15118/iso15118/evcc/comm_session_handler.py:158-179 | under TLS DIN SPEC 70121 is offered if and only if the list holds it twice, and agreed on if and only if moreover the station has it and nothing that is offered before it |
| `SapNegotiation.EvccSap.CreateSap` | src/iso15118/iso15118/evcc/comm_session_handler.py:158-209 | the request with running schema ids and priorities, or none above 20 entries; the configured list itself loses its DIN entry |
| `SapNegotiation.EvccSap.ProcessMessage` | src/iso15118/iso15118/evcc/states/sap_states.py:107-173 | the search by schema id sets protocol and next state as the look-up says |
| `SapNegotiation.SeccSap.ProcessMessage` | src/iso15118/iso15118/secc/states/sap_states.py:62-146 | sorting, search loop and the prepared response |
| `TaskEngine.SlotsAreKept` | engine/engine.py:141-184 | in every interleaving: slot count, names, functions and periods constant, at most one live thread per slot, stopped list duplicate-free and a subset of the tasks between commands |
| `TaskEngine.IndexNeverFails` | engine/engine.py:171-174 | a stopped thread is always found among the tasks, at its own slot |
| `TaskEngine.StatusFollowsCommands` | engine/engine.py:141-184 | however threads interleave, the status of a slot between commands is a function of the command log, and it is lost exactly after two stops with no resume between them |
| `TaskEngine.LostForGood` | engine/engine.py:146-155 | a lost slot keeps its thread and its set event in every continuation and begins no call any more, also where calls raise exceptions |
| `TaskEngine.GoesOnExactlyUnlessLeaving` | engine/engine.py:42-83 | while the event of a slot is clear and no stop is issued, in every continuation the slot keeps its thread, which goes on calling if and only if it had not seen its event set and no call of it has raised an exception |
| `TaskEngine.MissedSlotRecovers` | engine/engine.py:141-184 | the next stop and resume after the thread has finished, missed or ended by an exception, interleaved in any way, give the slot a new thread that goes on unless it raises |
| `TaskEngine.ResumeCanMissAThread` | engine/engine.py:163-177 | an interleaving in which a resumed slot is left without a live thread |
| `TaskEngine.TaskEngine.StopAllTask` | engine/engine.py:141-155 | the loop performs the steps of a stop and leaves every event set |
| `TaskEngine.TaskEngine.ResumeAllTasks` | engine/engine.py:158-184 | the loop performs the steps of a resume |
| `PeriodicScheduler.StartIsTheMaximum` | engine/engine.py:74-83 | the start of call k is the maximum over j <= k of due time j plus the work of calls j to k - 1 |
| `PeriodicScheduler.NeverEarly` | engine/engine.py:74-83 | no call begins before its due time |
| `PeriodicScheduler.CallsBegunBy` | engine/engine.py:74-83 | at most floor((T - t0) / period) + 1 calls have begun by time T |
| `PeriodicScheduler.LatenessIsWorkedOff` | engine/engine.py:74-83 | lateness shrinks by the unused part of each period until calls are on time, and then they stay so |
| `PeriodicScheduler.OnTime` | engine/engine.py:74-83 | with work within the period every call begins exactly on its due time |
| `PeriodicScheduler.PeriodicSleeper.Sleep` | engine/engine.py:74-78 | the later of now and the next due time |
| `PeriodicScheduler.PeriodicSleeper.RunCalls` | engine/engine.py:80-83 | the loop begins its calls at exactly the specified times |
| `ChargingSchedule.GetSaScheduleList` | src/iso15118/iso15118/secc/controller/simulator.py:622-683 | the loop yields the closed-form schedule and tariff for every departure time, and an error exactly beyond 102 days |
| `ChargingSchedule.ScheduleTiles` | src/iso15118/iso15118/secc/controller/simulator.py:622-673 | at each instant before departure exactly the entry of that day is in force, with power alternating by day, and none from then on |
| `ChargingSchedule.ScheduleIsWellFormed` | src/iso15118/iso15118/secc/controller/simulator.py:622-673 | starts increase from 0, only the last entry has a duration, which is positive and at most a day, and the end is the departure time |
| `ChargingSchedule.TariffFollowsSchedule` | src/iso15118/iso15118/secc/controller/simulator.py:622-683 | the tariff has the intervals of the schedule and its price level is one more than the day in force |
| `ChargingSchedule.ProcessSaSchedules` | src/iso15118/iso15118/evcc/controller/simulator.py:497-533 | the loop yields the profile of the last tuple, or an error if it is too long or there is none |
| `ChargingSchedule.ProfileFollowsSchedule` | src/iso15118/iso15118/evcc/controller/simulator.py:497-533 | for any well-formed schedule and instant the profile equals the entry in force, and zero where none is |
| `ChargingSchedule.ProfileAgreesWithOffer` | src/iso15118/iso15118/evcc/controller/simulator.py:497-533 | for every departure time the profile has strictly increasing starts, equals the offer before departure and is zero afterwards |
| `ChargingSchedule.ProfileFitsExactly` | src/iso15118/iso15118/shared/messages/iso15118_2/datatypes.py:189-194 | the profile passes the limit of 24 entries exactly up to 23 days |
| `ChargingSchedule.AcceptedExactlyUpToDeparture` | src/iso15118/iso15118/secc/states/iso15118_2_states.py:1493-1546 | any well-formed schedule passes the check exactly when from its first start it covers a whole day, if no departure is given, or nothing from the departure on, if one is |
| `ChargingSchedule.CheckIsTurnedAround` | src/iso15118/iso15118/secc/states/iso15118_2_states.py:1493-1546 | two days of schedule are turned down for a departure after one, and one day passes for a departure after two |
| `ChargingSchedule.InForceExactly` | src/iso15118/iso15118/secc/controller/simulator.py:622-673 | some entry of a well-formed schedule is in force exactly from its first start to its end |
| `ChargingSchedule.GeneratedScheduleIsAccepted` | src/iso15118/iso15118/secc/states/iso15118_2_states.py:1493-1546 | every generated schedule passes |
| `DoipCodec.RenderNumber` | doip_lib/utils.py:25-32 | the loop yields the lowest bytes, most significant first |
| `DoipCodec.ParseNumber` | doip_lib/utils.py:34-39 | the loop yields the big-endian number |
| `DoipCodec.NumberRoundTrip` | doip_lib/utils.py:25-39 | reading k written bytes gives the number modulo 256^k, negative numbers included |
| `DoipCodec.BytesRoundTrip` | doip_lib/utils.py:25-39 | writing a read number gives the same bytes |
| `DoipCodec.PrefixDecodable` | doip_lib/doip.py:45-68 | whatever follows, parsing a rendered message gives it back with its exact length if and only if it is well formed |
| `DoipCodec.BodySurvivesExactly` | doip_lib/doip.py:85-349 | per payload type, a body is parsed to the message exactly when its fields fit |
| `DoipCodec.StreamIsRecovered` | doip_lib/doip.py:45-68 | any list of well-formed messages is recovered from the concatenated frames |
| `DoipCodec.ParsedAddresses` | doip_lib/doip.py:245-265 | parsed addresses fit two bytes and a diagnostic message has user data, so its first byte is defined |
| `DoipCodec.RenderedOnTheWire` | doip_lib/doip.py:45-349 | every well-formed message goes out in exactly the stated bytes: version, its complement, type, length and fields in order |
| `DoipUds.ServiceRoundTrip` | doip_lib/uds.py:42-177 | every rendered service is parsed again for either flag, absent user data becoming empty; it is unchanged exactly when flag, identifier and user data fit |
| `DoipUds.BytesComeBack` | doip_lib/uds.py:42-177 | rendering what was parsed gives the bytes back up to those that parsing does not keep |
| `DoipUds.ReplyOnTheWire` | doip_lib/uds.py:42-177 | the bytes of each kind of reply, with bit six of the service number set |
| `DoipSession.SessionFollowsGrammar` | doip_lib/server.py:109-196 | for every sequence of chunks, what is written is told from the chunks alone: nothing unless the first message asks for routing, then the activation of that client and a block for every diagnostic message read after it, with none left out, each reply having the meaning of its own request and read; only the last reply may be missing, where its value cannot be read |
| `DoipSession.LongChunksAreCounted` | doip_lib/server.py:120-139 | in every run the count is that of all long chunks, earlier connections included, modulo three, and the connection is closed exactly from the third on |
| `DoipSession.AnswerIsUnderstood` | doip_lib/server.py:160-186 | parsing an answer gives the identifier and value that were read, the echo of a tester present, or the reason for refusing |
| `DoipSession.ClientRecoversTheSession` | doip_lib/server.py:109-196 | a client that parses the written bytes recovers exactly the messages of the session |
| `DoipSession.DoipServer.HandleTcpSession` | doip_lib/server.py:109-196 | the loop writes exactly the output of the specified run, which has the transcript that the chunks call for, and keeps the count of long chunks |
| `Iso2Evcc.WaitsKeepTheLimit` | src/iso15118/iso15118/evcc/states/iso15118_2_states.py:686-837 | after every Ongoing answer in these two states the wait is not negative and ends within 60 seconds of the first; the session goes on exactly within that time |
| `Iso2Evcc.TimerNeverExpires` | src/iso15118/iso15118/evcc/states/iso15118_2_states.py:686-837 | where answers arrive within their waits the timer never ends the session there |
| `Iso2Evcc.TimerIsFirstOngoing` | src/iso15118/iso15118/evcc/states/iso15118_2_states.py:686-837 | in every run the timer runs exactly while Ongoing answers follow each other and holds the time of the first |
| `Iso2Evcc.ClosingOnlyWhenStopped` | src/iso15118/iso15118/evcc/states/iso15118_2_states.py:864-1508 | WeldingDetection and SessionStop are entered only with the stop flag set, and once it is set the vehicle never charges again |
| `Iso2Evcc.StopIsFollowedExactly` | src/iso15118/iso15118/evcc/states/iso15118_2_states.py:975-1206 | in every run, a stop asked for by the station while charging closes the session if and only if it came neither with a metering receipt nor, over TLS, with the request for one; otherwise the flag is not even set |
| `Iso2Evcc.OverlookedStopsAreReachable` | src/iso15118/iso15118/evcc/states/iso15118_2_states.py:975-1206 | a run from the start for each of the two overlooked stops, after which the vehicle charges on |
| `Iso2Evcc.RunRenegotiates` | src/iso15118/iso15118/evcc/states/iso15118_2_states.py:888-1206 | in every run a requested renegotiation is remembered only in PowerDelivery and never together with the stop flag |
| `Iso2Evcc.PlaySession` | src/iso15118/iso15118/evcc/states/iso15118_2_states.py:660-1508 | a whole session of the object, which succeeds only after charging was stopped |
| `Iso2EvccOrder.ReactsExactly` | src/iso15118/iso15118/evcc/states/iso15118_2_states.py:686-1508 | in every run from Authorization on: an answer makes the vehicle give up exactly under the stated conditions with 60, 60, 40, 7 and 60 seconds since it began to wait, succeed exactly in SessionStop, and else go to the stated state with the stated flags and wait |
| `Iso2EvccOrder.TimerIsWaitingSince` | src/iso15118/iso15118/evcc/states/iso15118_2_states.py:686-1508 | in every run the timer, welding detection included, stands for the first of the answers with which the vehicle was last made to ask again |
| `Iso2EvccOrder.StaysOnItsPath` | src/iso15118/iso15118/evcc/states/iso15118_2_states.py:759-1206 | in every run alternating current never enters CableCheck, PreCharge or WeldingDetection, and ChargingStatus and MeteringReceipt are its own |
| `Iso2EvccOrder.ChargesOnlyWhenChecked` | src/iso15118/iso15118/evcc/states/iso15118_2_states.py:759-1452 | in every run on direct current, states in which current may flow come only after a cable check with ready EVSE and valid isolation and then a precharge, both since the parameters were last discussed |
| `Iso2Evcc.EvccSession.DoAuthorization` | src/iso15118/iso15118/evcc/states/iso15118_2_states.py:686-727 | a finished answer resets the timer and moves on; otherwise the wait is cut to what is left of 60 seconds |
| `Iso2Evcc.EvccSession.DoChargeParameterDiscovery` | src/iso15118/iso15118/evcc/states/iso15118_2_states.py:759-837 | the same, then PowerDelivery for AC and CableCheck for DC |
| `Iso2Evcc.EvccSession.DoCableCheck` | src/iso15118/iso15118/evcc/states/iso15118_2_states.py:1236-1277 | Ongoing up to 40 seconds; a finished answer must report a ready EVSE and valid isolation |
| `Iso2Evcc.EvccSession.DoPreCharge` | src/iso15118/iso15118/evcc/states/iso15118_2_states.py:1313-1351 | repeated up to 7 seconds until precharged |
| `Iso2Evcc.EvccSession.DoPowerDelivery` | src/iso15118/iso15118/evcc/states/iso15118_2_states.py:864-925 | the stop flag decides before renegotiation, and that before charging |
| `Iso2Evcc.EvccSession.DoMeteringReceipt` | src/iso15118/iso15118/evcc/states/iso15118_2_states.py:975-1024 | stop and renegotiation are passed on, but only renegotiation is remembered |
| `Iso2Evcc.EvccSession.DoChargingStatus` | src/iso15118/iso15118/evcc/states/iso15118_2_states.py:1114-1206 | receipt, renegotiation, stop and the controller decide in this order; a stop sets the flag |
| `Iso2Evcc.EvccSession.DoCurrentDemand` | src/iso15118/iso15118/evcc/states/iso15118_2_states.py:1387-1452 | a stop asked for or decided sets the flag |
| `Iso2Evcc.EvccSession.DoWeldingDetection` | src/iso15118/iso15118/evcc/states/iso15118_2_states.py:1479-1508 | repeated up to 60 seconds until finished, then SessionStop |
| `Iso2Evcc.EvccSession.ProcessMessage` | src/iso15118/iso15118/evcc/states/iso15118_2_states.py:660-1508 | the state named by the phase processes the response |

## Left out

- EXI coding, V2GTP headers and pydantic validation: messages are values that arrive as they were sent, reduced to the fields that steer a state machine. Validation is modelled only where it decides a stated result (schedule, profile and protocol entry limits).
- Copies of limits and measurements between messages and the EV and EVSE data contexts: they would only add easy members.
- Sockets, asyncio and the TCP, UDP and TLS transports. Sending does not fail in the DIN and ECU models; it can in `ReceiveLoop` and `DoipSession`.
- Resuming a paused session and stored session ids; the session id a vehicle starts with.
- Exceptions raised by the controllers of the DIN station other than a charging command that times out.
- The SECC states of ISO 15118-2, all states of ISO 15118-20, certificates, signatures, and the ISO 15118-2 vehicle before Authorization.
- Floating point: the charge increment, clocks and waits are exact reals.
- The arbitration id of a reassembled UDS request, which no handler looks at, and VIN characters above one byte.
- Registering tasks while the engine runs, starting threads one by one, and commands issued by two controlling threads at once: commands follow each other, while their single steps interleave with all threads.
- The restart of the DoIP server, its UDP side and its value generators: values are arbitrary results of a read.
- SOME/IP, the console, heartbeats, SimVA, and the throttle, DTC, overflow and periodic-error tasks.
- UdsEcu.Answer: the constant data bytes behind what an answer repeats of its request (measured values, trouble codes, part numbers, timing) are listed in the body alone, because they are a table.
- DinSecc.SeccSession.CreateNextMessage: does not model the EXI encoding, which is outside the protocol logic; the timeout it is given is always the sequence timeout.
- DinEvcc.EvccSession.CreateNextMessage: does not model the EXI encoding, which is outside the protocol logic.
- Time within a turn: how long a party has waited is chosen freely for each turn, and processing a message takes no time of its own. When one party's read times out the connection counts as closed for both.
- ReceiveLoop.OneNotification: assumes that closing the connection does not raise an error.
- DoipSession.DoipServer.HandleTcpSession: after the third long chunk the connection counts as closed, because the server restart that follows is not modelled.
