/**
 What every run of a DIN SPEC 70121 charging station guarantees, whatever the
 vehicle sends and whatever the EVSE controller answers.
 */
module DinSeccSafety {
  import opened Common
  import opened DinMessages
  import opened DinSecc

  // ---------------------------------------------------------------------
  // High level controlled charging
  // ---------------------------------------------------------------------

  /** Between requests of a live session HLC charging is on exactly in the CurrentDemand state. */
  ghost predicate HlcInStep(s: Secc) {
    s.status == Running ==> (s.hlc <==> s.state.phase == CurrentDemand)
  }

  lemma PowerDeliverySetsHlc(s: Secc, m: Message<Request>, e: Environment)
    requires s.state.phase == PowerDelivery && s.status == Running
    requires s.hlc ==> m.body.PowerDeliveryReq?
    ensures HlcInStep(Advance(ProcessPowerDelivery(s, m, e)))
  {
    if Check(s.state, s.sessionId, m).Accept? {
      match m.body {
        case SessionStopReq =>
        case WeldingDetectionReq =>
        case PowerDeliveryReq(_, _) =>
        case _ =>
      }
    }
  }

  lemma HlcStep(s: Secc, m: Message<Request>, e: Environment)
    requires HlcInStep(s)
    ensures HlcInStep(Receive(s, m, e))
  {
    if s.status == Running {
      var t := s.Logged(Received(m.body));
      match s.state.phase {
        case CableCheck => CableCheckKeepsHlc(t, m, e);
        case PreCharge => if m.body.PowerDeliveryReq? { PowerDeliverySetsHlc(t.Entering(PowerDelivery), m, e); }
        case PowerDelivery => PowerDeliverySetsHlc(t, m, e);
        case CurrentDemand => if m.body.PowerDeliveryReq? { PowerDeliverySetsHlc(t.Entering(PowerDelivery), m, e); }
        case _ => OthersKeepHlc(t, m, e);
      }
    }
  }

  lemma OthersKeepHlc(s: Secc, m: Message<Request>, e: Environment)
    requires s.status == Running && !s.hlc
    requires !(s.state.phase in {CableCheck, PreCharge, PowerDelivery, CurrentDemand})
    ensures HlcInStep(Advance(Process(s, m, e)))
  {
    if s.state.phase == WeldingDetection || s.state.phase == SessionStop {
      ClosingKeepsHlc(s, m, e);
    } else {
      SetupKeepsHlc(s, m, e);
    }
  }

  lemma SetupKeepsHlc(s: Secc, m: Message<Request>, e: Environment)
    requires s.status == Running && !s.hlc
    requires s.state.phase in {SessionSetup, ServiceDiscovery, ServicePaymentSelection, ContractAuthentication,
                               ChargeParameterDiscovery}
    ensures HlcInStep(Advance(Process(s, m, e)))
  {}

  lemma ClosingKeepsHlc(s: Secc, m: Message<Request>, e: Environment)
    requires s.status == Running && !s.hlc && (s.state.phase == WeldingDetection || s.state.phase == SessionStop)
    ensures HlcInStep(Advance(Process(s, m, e)))
  {}

  lemma CableCheckKeepsHlc(s: Secc, m: Message<Request>, e: Environment)
    requires s.state.phase == CableCheck && s.status == Running && !s.hlc
    ensures HlcInStep(Advance(ProcessCableCheck(s, m, e)))
  {}

  lemma {:induction false} HlcFollowsCurrentDemand(sessionId: string, modes: seq<EnergyMode>, inputs: seq<Input>)
    ensures HlcInStep(Run(Initial(sessionId, modes, false), inputs))
  {
    if inputs != [] {
      var last := |inputs| - 1;
      HlcFollowsCurrentDemand(sessionId, modes, inputs[..last]);
      HlcStep(Run(Initial(sessionId, modes, false), inputs[..last]), inputs[last].message, inputs[last].env);
    }
  }

  // ---------------------------------------------------------------------
  // A response to every request
  // ---------------------------------------------------------------------

  /** What a request of a known kind leaves behind: a response in kind, final exactly on failure or stop. */
  ghost predicate Answers(s: Secc, m: Message<Request>) {
    && s.status == Running
    && s.state.reply.Some?
    && s.state.reply.value.body.Kind() == m.body.Kind() != None
    && s.state.reply.value.sessionId == s.sessionId
    && (s.state.next == Terminate <==> m.body.SessionStopReq? || s.state.reply.value.body.code.Negative())
  }

  /**
   Not answered are a body without a registered response, a PowerDeliveryReq that is
   accepted without its optional parameter, and a ServiceDiscoveryReq that is
   accepted by a station without energy modes.
   */
  predicate Answerable(s: Secc, m: Message<Request>) {
    && m.body.Kind().Some?
    && (Check(s.state, s.sessionId, m).Accept? ==>
          && (m.body.PowerDeliveryReq? ==> m.body.hasParameter)
          && (s.state.phase == ServiceDiscovery ==> s.modes != []))
  }

  /** A failure is answered in kind and ends the session. */
  lemma StoppingAnswers(s: Secc, m: Message<Request>, code: ResponseCode)
    requires s.status == Running && m.body.Kind().Some? && code.Negative()
    ensures Answers(s.Stopping(m.body, code), m)
  {}

  lemma PowerDeliveryAnswers(s: Secc, m: Message<Request>, e: Environment)
    requires s.status == Running && s.state.phase == PowerDelivery && Answerable(s, m)
    ensures Answers(ProcessPowerDelivery(s, m, e), m)
  {
    var verdict := Check(s.state, s.sessionId, m);
    if verdict.Reject? {
      StoppingAnswers(s, m, verdict.code);
    } else {
      match m.body {
        case SessionStopReq => SessionStopAnswers(s.Entering(SessionStop), m);
        case WeldingDetectionReq => WeldingDetectionAnswers(s.Entering(WeldingDetection), m);
        case PowerDeliveryReq(_, _) => StartStopAnswers(s, m, e);
        case _ =>
      }
    }
  }

  lemma StartStopAnswers(s: Secc, m: Message<Request>, e: Environment)
    requires s.status == Running && m.body.PowerDeliveryReq?
    ensures Answers(StartCharging(s), m) && Answers(StopCharging(s, m, e), m)
  {}

  lemma CableReadsAnswer(s: Secc, m: Message<Request>, e: Environment)
    requires s.status == Running && m.body.CableCheckReq?
    ensures Answers(ReadIsolation(s, m, e), m)
    ensures Answers(ReadContactors(s, m, e), m)
  {
    StoppingAnswers(s.Logged(IsolationRead(e.isolation)), m, Failed);
    StoppingAnswers(s.Logged(ContactorCloseRead(e.contactorClosed)), m, Failed);
  }

  lemma CableCheckAnswers(s: Secc, m: Message<Request>, e: Environment)
    requires s.status == Running && s.state.phase == CableCheck && m.body.Kind().Some?
    ensures Answers(ProcessCableCheck(s, m, e), m)
  {
    if Check(s.state, s.sessionId, m).Accept? && m.body.CableCheckReq? && m.body.evOk {
      if s.state.cableCheckStarted {
        CableReadsAnswer(s, m, e);
      } else {
        CableReadsAnswer(s.Logged(CableCheckStarted).(state := s.state.(cableCheckStarted := true)), m, e);
      }
    }
  }

  lemma RampUpAnswers(s: Secc, m: Message<Request>, e: Environment)
    requires s.status == Running && m.body.PreChargeReq?
    ensures Answers(RampUp(s, m, e), m)
  {
    var read := s.Logged(PresentCurrentRead(e.presentCurrent));
    StoppingAnswers(read, m, Failed);
    var command := ChargingCommand(m.body.targetVoltage, m.body.targetCurrent, true, !e.commandTimesOut);
    StoppingAnswers(read.Logged(command), m, Failed);
  }

  lemma PreChargeAnswers(s: Secc, m: Message<Request>, e: Environment)
    requires s.status == Running && s.state.phase == PreCharge && Answerable(s, m)
    ensures Answers(ProcessPreCharge(s, m, e), m)
  {
    var verdict := Check(s.state, s.sessionId, m);
    if verdict.Reject? {
      StoppingAnswers(s, m, verdict.code);
    } else if m.body.PowerDeliveryReq? {
      PowerDeliveryAnswers(s.Entering(PowerDelivery), m, e);
    } else {
      assert m.body.PreChargeReq?;
      StoppingAnswers(s, m, Failed);
      RampUpAnswers(s, m, e);
    }
  }

  lemma CurrentDemandAnswers(s: Secc, m: Message<Request>, e: Environment)
    requires s.status == Running && s.state.phase == CurrentDemand && Answerable(s, m)
    ensures Answers(ProcessCurrentDemand(s, m, e), m)
  {
    var verdict := Check(s.state, s.sessionId, m);
    if verdict.Reject? {
      StoppingAnswers(s, m, verdict.code);
    } else if m.body.PowerDeliveryReq? {
      PowerDeliveryAnswers(s.Entering(PowerDelivery), m, e);
    } else {
      assert m.body.CurrentDemandReq?;
      var command := ChargingCommand(m.body.targetVoltage, m.body.targetCurrent, false, !e.commandTimesOut);
      StoppingAnswers(s.Logged(command), m, Failed);
    }
  }

  lemma UnanswerableCrashes(s: Secc, m: Message<Request>, e: Environment)
    requires s.status == Running && !Answerable(s, m)
    ensures Answer(s, m, e).None? && Receive(s, m, e).status == Crashed
  {}

  lemma AnswerableIsAnswered(s: Secc, m: Message<Request>, e: Environment)
    requires s.status == Running && Answerable(s, m)
    ensures Answers(Processed(s, m, e), m)
  {
    var t := s.Logged(Received(m.body));
    match s.state.phase {
      case CableCheck => CableCheckAnswers(t, m, e);
      case PreCharge => PreChargeAnswers(t, m, e);
      case PowerDelivery => PowerDeliveryAnswers(t, m, e);
      case CurrentDemand => CurrentDemandAnswers(t, m, e);
      case _ => OtherAnswers(t, m, e);
    }
  }

  /**
   A live session answers a request if and only if that is answerable, and crashes
   otherwise. The answer is of the kind of the request, and the session ends with
   it exactly when it is negative or the request was a SessionStopReq.
   */
  lemma AnsweredExactly(s: Secc, m: Message<Request>, e: Environment)
    requires s.status == Running
    ensures Answer(s, m, e).Some? <==> Answerable(s, m)
    ensures Receive(s, m, e).status == Crashed <==> !Answerable(s, m)
    ensures var a := Answer(s, m, e);
            a.Some? ==>
              && a.value.body.Kind() == m.body.Kind() != None
              && a.value.sessionId == Receive(s, m, e).sessionId
              && (Receive(s, m, e).status == Stopped <==> m.body.SessionStopReq? || a.value.body.code.Negative())
  {
    if Answerable(s, m) {
      AnswerableIsAnswered(s, m, e);
    } else {
      UnanswerableCrashes(s, m, e);
    }
  }

  lemma OtherAnswers(s: Secc, m: Message<Request>, e: Environment)
    requires s.status == Running && Answerable(s, m)
    requires !(s.state.phase in {CableCheck, PreCharge, PowerDelivery, CurrentDemand})
    ensures Answers(Process(s, m, e), m)
  {
    match s.state.phase {
      case SessionSetup => SetupAnswers(s, m, e);
      case ServiceDiscovery => SetupAnswers(s, m, e);
      case ServicePaymentSelection => PaymentAnswers(s, m);
      case ContractAuthentication => AuthenticationAnswers(s, m, e);
      case ChargeParameterDiscovery => ParametersAnswer(s, m, e);
      case WeldingDetection => WeldingDetectionAnswers(s, m);
      case SessionStop => SessionStopAnswers(s, m);
    }
  }

  lemma SessionStopAnswers(s: Secc, m: Message<Request>)
    requires s.status == Running && m.body.Kind().Some? && s.state.phase == SessionStop
    ensures Answers(ProcessSessionStop(s, m), m)
  {
    var verdict := Check(s.state, s.sessionId, m);
    if verdict.Reject? {
      StoppingAnswers(s, m, verdict.code);
    }
  }

  lemma WeldingDetectionAnswers(s: Secc, m: Message<Request>)
    requires s.status == Running && m.body.Kind().Some? && s.state.phase == WeldingDetection
    ensures Answers(ProcessWeldingDetection(s, m), m)
  {
    var verdict := Check(s.state, s.sessionId, m);
    if verdict.Reject? {
      StoppingAnswers(s, m, verdict.code);
    } else if m.body.SessionStopReq? {
      SessionStopAnswers(s.Entering(SessionStop), m);
      assert Check(Entered(SessionStop), s.sessionId, m).Accept?;
    }
  }

  lemma SetupAnswers(s: Secc, m: Message<Request>, e: Environment)
    requires s.status == Running && Answerable(s, m)
    ensures s.state.phase == SessionSetup ==> Answers(ProcessSessionSetup(s, m, e), m)
    ensures s.state.phase == ServiceDiscovery ==> Answers(ProcessServiceDiscovery(s, m), m)
  {}

  lemma AuthenticationAnswers(s: Secc, m: Message<Request>, e: Environment)
    requires s.status == Running && s.state.phase == ContractAuthentication && m.body.Kind().Some?
    ensures Answers(ProcessContractAuthentication(s, m, e), m)
  {}

  lemma PaymentAnswers(s: Secc, m: Message<Request>)
    requires s.status == Running && s.state.phase == ServicePaymentSelection && m.body.Kind().Some?
    ensures Answers(ProcessServicePaymentSelection(s, m), m)
  {}

  lemma ParametersAnswer(s: Secc, m: Message<Request>, e: Environment)
    requires s.status == Running && s.state.phase == ChargeParameterDiscovery && m.body.Kind().Some?
    ensures Answers(ProcessChargeParameterDiscovery(s, m, e), m)
  {}

  // ---------------------------------------------------------------------
  // No charging before every precondition has been met, in order
  // ---------------------------------------------------------------------

  const MILESTONES: nat := 12

  /** The i-th thing that must have happened before current may be commanded. */
  predicate Milestone(i: nat, ev: Event) {
    match i
    case 0 => ev == AuthorizationRead(true)
    case 1 => ev == ScheduleRead(true)
    case 2 => ev.Received? && ev.request.CableCheckReq?
    case 3 => ev == CableCheckStarted
    case 4 => ev == ContactorCloseRead(Some(true))
    case 5 => ev.Received? && ev.request.CableCheckReq?
    case 6 => ev == IsolationRead(Some(Valid)) || ev == IsolationRead(Some(Warning))
    case 7 => ev.Received? && ev.request.PreChargeReq? && ev.request.targetCurrent <= 2.0
    case 8 => ev.PresentCurrentRead? && ev.amps.Some? && ev.amps.value <= 2.0
    case 9 => ev.ChargingCommand? && ev.precharge && ev.delivered
    case 10 => ev.Received? && ev.request.PowerDeliveryReq? && ev.request.ready
    case 11 => ev == HlcSet(true)
    case _ => false
  }

  /** The first n milestones occur in the log, in order. */
  predicate Reached(log: seq<Event>, n: nat)
    decreases |log|
  {
    n == 0 || (log != [] &&
               var before, last := log[..|log| - 1], log[|log| - 1];
               Reached(before, n) || (Reached(before, n - 1) && Milestone(n - 1, last)))
  }

  /** The milestones a live session has certainly passed, read off its current state. */
  function Certain(state: State): nat {
    match state.phase
    case ChargeParameterDiscovery => 1
    case CableCheck => if state.contactorsClosed then 5 else if state.cableCheckStarted then 4 else 2
    case PreCharge => if state.expectFirst then 7 else 10
    case PowerDelivery => 10
    case CurrentDemand => 12
    case _ => 0
  }

  ghost predicate CommandsEarned(log: seq<Event>) {
    forall k | 0 <= k < |log| && log[k].ChargingCommand? && !log[k].precharge :: Reached(log[..k], MILESTONES)
  }

  ghost predicate FlagsFit(state: State) {
    && (state.contactorsClosed ==> state.phase == CableCheck && state.cableCheckStarted)
    && (state.cableCheckStarted ==> state.phase == CableCheck)
  }

  ghost predicate Earned(s: Secc) {
    && CommandsEarned(s.log)
    && (s.status == Running ==> Reached(s.log, Certain(s.state)) && FlagsFit(s.state))
  }

  /** What a processed request must leave behind for its outcome to be acted upon. */
  ghost predicate Sound(s: Secc) {
    && CommandsEarned(s.log)
    && (s.status == Running ==>
          match s.state.next
          case Stay => Reached(s.log, Certain(s.state)) && FlagsFit(s.state)
          case Goto(phase) => Reached(s.log, Certain(Entered(phase)))
          case Terminate => true)
  }

  lemma {:induction false} ReachedFewer(log: seq<Event>, n: nat, fewer: nat)
    requires Reached(log, n) && fewer <= n
    ensures Reached(log, fewer)
    decreases |log|
  {
    if fewer != 0 && fewer != n {
      var before := log[..|log| - 1];
      if Reached(before, n) {
        ReachedFewer(before, n, fewer);
      } else {
        ReachedFewer(before, n - 1, fewer);
      }
    }
  }

  lemma LogKeeps(log: seq<Event>, ev: Event, n: nat)
    requires Reached(log, n)
    ensures Reached(log + [ev], n)
    ensures Milestone(n, ev) ==> Reached(log + [ev], n + 1)
  {
    assert (log + [ev])[..|log|] == log;
  }

  lemma {:induction false} LogEarns(log: seq<Event>, ev: Event)
    requires CommandsEarned(log)
    requires ev.ChargingCommand? && !ev.precharge ==> Reached(log, MILESTONES)
    ensures CommandsEarned(log + [ev])
  {
    forall k | 0 <= k < |log + [ev]| && (log + [ev])[k].ChargingCommand? && !(log + [ev])[k].precharge
      ensures Reached((log + [ev])[..k], MILESTONES)
    {
      assert (log + [ev])[..k] == log[..k];
      assert log[..|log|] == log;
    }
  }

  /** Logging an event keeps what was reached, and passes milestone n when the event is it. */
  lemma Logs(s: Secc, ev: Event, n: nat)
    requires CommandsEarned(s.log) && Reached(s.log, n)
    requires ev.ChargingCommand? && !ev.precharge ==> n == MILESTONES
    ensures CommandsEarned(s.Logged(ev).log)
    ensures Reached(s.Logged(ev).log, n)
    ensures Milestone(n, ev) ==> Reached(s.Logged(ev).log, n + 1)
  {
    LogKeeps(s.log, ev, n);
    LogEarns(s.log, ev);
  }

  lemma SessionStopEarned(s: Secc, m: Message<Request>)
    requires CommandsEarned(s.log) && s.state.phase == SessionStop && FlagsFit(s.state)
    ensures Sound(ProcessSessionStop(s, m))
  {}

  lemma WeldingDetectionEarned(s: Secc, m: Message<Request>)
    requires CommandsEarned(s.log) && s.state.phase == WeldingDetection && FlagsFit(s.state)
    ensures Sound(ProcessWeldingDetection(s, m))
  {
    SessionStopEarned(s.Entering(SessionStop), m);
  }

  lemma StartChargingEarned(s: Secc)
    requires CommandsEarned(s.log) && Reached(s.log, 11)
    ensures Sound(StartCharging(s))
  {
    Logs(s, HlcSet(true), 11);
  }

  lemma StopChargingEarned(s: Secc, m: Message<Request>, e: Environment)
    requires CommandsEarned(s.log) && Reached(s.log, 10) && s.state.phase == PowerDelivery && FlagsFit(s.state)
    ensures Sound(StopCharging(s, m, e))
  {
    Logs(s, HlcSet(false), 10);
    var off := s.Logged(HlcSet(false)).(hlc := false);
    Logs(off, ChargerStopped, 10);
    Logs(off.Logged(ChargerStopped), ContactorOpenRead(e.contactorOpened), 10);
  }

  /** PowerDelivery, reached directly or by delegation, once precharging has succeeded. */
  lemma PowerDeliveryEarned(s: Secc, m: Message<Request>, e: Environment)
    requires CommandsEarned(s.log) && s.state.phase == PowerDelivery && FlagsFit(s.state)
    requires Reached(s.log, 10)
    requires m.body.PowerDeliveryReq? && m.body.ready ==> Reached(s.log, 11)
    ensures Sound(ProcessPowerDelivery(s, m, e))
  {
    if Check(s.state, s.sessionId, m).Accept? {
      match m.body {
        case SessionStopReq => SessionStopEarned(s.Entering(SessionStop), m);
        case WeldingDetectionReq => WeldingDetectionEarned(s.Entering(WeldingDetection), m);
        case PowerDeliveryReq(ready, _) =>
          if ready {
            StartChargingEarned(s);
          } else {
            StopChargingEarned(s, m, e);
          }
        case _ =>
      }
    }
  }

  lemma ReadIsolationEarned(s: Secc, m: Message<Request>, e: Environment)
    requires CommandsEarned(s.log) && s.state.phase == CableCheck && FlagsFit(s.state) && s.state.contactorsClosed
    requires Reached(s.log, 6)
    ensures Sound(ReadIsolation(s, m, e))
  {
    var read := s.Logged(IsolationRead(e.isolation));
    Logs(s, IsolationRead(e.isolation), 6);
    assert ReadIsolation(s, m, e).log == read.log;
    if e.isolation == Some(Valid) || e.isolation == Some(Warning) {
      assert Certain(Entered(PreCharge)) == 7;
    } else {
      ReachedFewer(read.log, 6, 5);
    }
  }

  lemma ReadContactorsEarned(s: Secc, m: Message<Request>, e: Environment)
    requires CommandsEarned(s.log) && s.state.phase == CableCheck && FlagsFit(s.state)
    requires s.state.cableCheckStarted && !s.state.contactorsClosed
    requires Reached(s.log, 4)
    ensures Sound(ReadContactors(s, m, e))
  {
    Logs(s, ContactorCloseRead(e.contactorClosed), 4);
  }

  lemma CableCheckEarned(s: Secc, m: Message<Request>, e: Environment)
    requires CommandsEarned(s.log) && s.state.phase == CableCheck && FlagsFit(s.state)
    requires m.body.CableCheckReq? ==>
               Reached(s.log, if s.state.contactorsClosed then 6 else if s.state.cableCheckStarted then 4 else 3)
    ensures Sound(ProcessCableCheck(s, m, e))
  {
    if Check(s.state, s.sessionId, m).Accept? && m.body.CableCheckReq? && m.body.evOk {
      if s.state.contactorsClosed {
        ReadIsolationEarned(s, m, e);
      } else if s.state.cableCheckStarted {
        ReadContactorsEarned(s, m, e);
      } else {
        Logs(s, CableCheckStarted, 3);
        ReadContactorsEarned(s.Logged(CableCheckStarted).(state := s.state.(cableCheckStarted := true)), m, e);
      }
    }
  }

  lemma RampUpEarned(s: Secc, m: Message<Request>, e: Environment)
    requires CommandsEarned(s.log) && s.state.phase == PreCharge && FlagsFit(s.state)
    requires m.body.PreChargeReq?
    requires m.body.targetCurrent <= 2.0 ==> Reached(s.log, 8)
    ensures Sound(RampUp(s, m, e))
  {
    var read := s.Logged(PresentCurrentRead(e.presentCurrent));
    if m.body.targetCurrent <= 2.0 {
      Logs(s, PresentCurrentRead(e.presentCurrent), 8);
      if e.presentCurrent.Some? && e.presentCurrent.value <= 2.0 {
        Logs(read, ChargingCommand(m.body.targetVoltage, m.body.targetCurrent, true, !e.commandTimesOut), 9);
      }
    } else {
      Logs(s, PresentCurrentRead(e.presentCurrent), 0);
    }
  }

  lemma PreChargeEarned(s: Secc, m: Message<Request>, e: Environment)
    requires CommandsEarned(s.log) && s.state.phase == PreCharge && FlagsFit(s.state)
    requires Reached(s.log, Certain(s.state))
    requires m.body.PreChargeReq? && m.body.targetCurrent <= 2.0 ==> Reached(s.log, 8)
    requires m.body.PowerDeliveryReq? && m.body.ready && !s.state.expectFirst ==> Reached(s.log, 11)
    ensures Sound(ProcessPreCharge(s, m, e))
  {
    if Check(s.state, s.sessionId, m).Accept? {
      if m.body.PowerDeliveryReq? {
        PowerDeliveryEarned(s.Entering(PowerDelivery), m, e);
      } else if m.body.PreChargeReq? && m.body.evOk {
        RampUpEarned(s, m, e);
      }
    }
  }

  lemma CurrentDemandEarned(s: Secc, m: Message<Request>, e: Environment)
    requires CommandsEarned(s.log) && s.state.phase == CurrentDemand && FlagsFit(s.state)
    requires Reached(s.log, MILESTONES)
    ensures Sound(ProcessCurrentDemand(s, m, e))
  {
    if Check(s.state, s.sessionId, m).Accept? {
      if m.body.PowerDeliveryReq? {
        ReachedFewer(s.log, MILESTONES, 10);
        ReachedFewer(s.log, MILESTONES, 11);
        PowerDeliveryEarned(s.Entering(PowerDelivery), m, e);
      } else if m.body.CurrentDemandReq? {
        Logs(s, ChargingCommand(m.body.targetVoltage, m.body.targetCurrent, false, !e.commandTimesOut), MILESTONES);
      }
    }
  }

  lemma SetupEarned(s: Secc, m: Message<Request>, e: Environment)
    requires CommandsEarned(s.log) && FlagsFit(s.state) && Reached(s.log, Certain(s.state))
    requires s.state.phase in {SessionSetup, ServiceDiscovery, ServicePaymentSelection}
    ensures Sound(Process(s, m, e))
  {
    match s.state.phase {
      case SessionSetup =>
      case ServiceDiscovery =>
      case ServicePaymentSelection =>
    }
  }

  lemma ContractAuthenticationEarned(s: Secc, m: Message<Request>, e: Environment)
    requires CommandsEarned(s.log) && FlagsFit(s.state) && s.state.phase == ContractAuthentication
    ensures Sound(ProcessContractAuthentication(s, m, e))
  {
    Logs(s, AuthorizationRead(e.accepted), 0);
  }

  lemma ChargeParameterDiscoveryEarned(s: Secc, m: Message<Request>, e: Environment)
    requires CommandsEarned(s.log) && FlagsFit(s.state) && s.state.phase == ChargeParameterDiscovery
    requires Reached(s.log, 1)
    ensures Sound(ProcessChargeParameterDiscovery(s, m, e))
  {
    Logs(s, ScheduleRead(e.schedules > 0), 1);
  }

  lemma OutcomeEarned(p: Secc)
    requires Sound(p)
    ensures Earned(Advance(p))
  {}

  lemma ReceiveEarned(s: Secc, m: Message<Request>, e: Environment)
    requires Earned(s)
    ensures Earned(Receive(s, m, e))
  {
    if s.status == Running {
      ProcessedEarned(s, m, e);
      OutcomeEarned(Processed(s, m, e));
    }
  }

  lemma ProcessedEarned(s: Secc, m: Message<Request>, e: Environment)
    requires Earned(s) && s.status == Running
    ensures Sound(Processed(s, m, e))
  {
    var t := s.Logged(Received(m.body));
    if s.state.phase == PreCharge {
      ReceivePreCharge(s, m, e);
    } else {
      Logs(s, Received(m.body), Certain(s.state));
      assert t.state == s.state;
      match s.state.phase {
        case CableCheck => CableCheckEarned(t, m, e);
        case PowerDelivery => PowerDeliveryEarned(t, m, e);
        case CurrentDemand => CurrentDemandEarned(t, m, e);
        case WeldingDetection => WeldingDetectionEarned(t, m);
        case SessionStop => SessionStopEarned(t, m);
        case ContractAuthentication => ContractAuthenticationEarned(t, m, e);
        case ChargeParameterDiscovery => ChargeParameterDiscoveryEarned(t, m, e);
        case _ => SetupEarned(t, m, e);
      }
    }
  }

  lemma ReceivePreCharge(s: Secc, m: Message<Request>, e: Environment)
    requires Earned(s) && s.status == Running && s.state.phase == PreCharge
    ensures Sound(ProcessPreCharge(s.Logged(Received(m.body)), m, e))
  {
    var t := s.Logged(Received(m.body));
    ReachedFewer(s.log, Certain(s.state), 7);
    Logs(s, Received(m.body), 7);
    Logs(s, Received(m.body), Certain(s.state));
    PreChargeEarned(t, m, e);
  }

  lemma {:induction false} RunEarned(sessionId: string, modes: seq<EnergyMode>, hlc: bool, inputs: seq<Input>)
    ensures Earned(Run(Initial(sessionId, modes, hlc), inputs))
  {
    if inputs != [] {
      var last := |inputs| - 1;
      RunEarned(sessionId, modes, hlc, inputs[..last]);
      ReceiveEarned(Run(Initial(sessionId, modes, hlc), inputs[..last]), inputs[last].message, inputs[last].env);
    }
  }

  /** Positions in the log, strictly increasing, at which the first milestones were passed. */
  ghost predicate Witnesses(log: seq<Event>, w: seq<nat>) {
    && (forall i | 0 <= i < |w| :: w[i] < |log| && Milestone(i, log[w[i]]))
    && (forall i, j | 0 <= i < j < |w| :: w[i] < w[j])
  }

  lemma {:induction false} ReachedHasWitnesses(log: seq<Event>, n: nat) returns (w: seq<nat>)
    requires Reached(log, n)
    ensures |w| == n && Witnesses(log, w)
    decreases |log|
  {
    if n == 0 {
      w := [];
    } else {
      var last := |log| - 1;
      if Reached(log[..last], n) {
        w := ReachedHasWitnesses(log[..last], n);
      } else {
        w := ReachedHasWitnesses(log[..last], n - 1);
        w := w + [last];
      }
    }
  }

  /**
   Against any requests and any controller answers, a charging command outside
   precharging is preceded, in this order and within the session, by an accepted
   authorization, a delivered schedule, a CableCheckReq that started the cable
   check and saw the contactors closed, a later CableCheckReq that read a valid or
   warning isolation level, a PreChargeReq for at most 2 A while at most 2 A flowed,
   a delivered precharge command, and a PowerDeliveryReq ready to charge.
   */
  lemma NoCurrentBeforeSafetyChecks(
      sessionId: string, modes: seq<EnergyMode>, hlc: bool, inputs: seq<Input>, k: nat) returns (w: seq<nat>)
    requires var log := Run(Initial(sessionId, modes, hlc), inputs).log;
             k < |log| && log[k].ChargingCommand? && !log[k].precharge
    ensures var log := Run(Initial(sessionId, modes, hlc), inputs).log;
            && |w| == MILESTONES
            && Witnesses(log, w)
            && forall i | 0 <= i < |w| :: w[i] < k
  {
    var log := Run(Initial(sessionId, modes, hlc), inputs).log;
    RunEarned(sessionId, modes, hlc, inputs);
    w := ReachedHasWitnesses(log[..k], MILESTONES);
    forall i | 0 <= i < |w| ensures w[i] < k && Milestone(i, log[w[i]]) {
      assert log[..k][w[i]] == log[w[i]];
    }
  }
}
