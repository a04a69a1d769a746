/**
 What a DIN SPEC 70121 charging station tells its controller and its vehicle, request
 by request and independent of how its states hand requests over to each other.
 */
module DinSeccAnswers {
  import opened Common
  import opened DinMessages
  import opened DinSecc
  import opened DinSeccSafety

  /** The kinds of request a station takes up: only the first of its state until one has been answered there. */
  predicate Wanted(s: State, kind: Phase) {
    || kind == s.phase
    || (!s.expectFirst &&
        match s.phase
        case PreCharge => kind == PowerDelivery
        case PowerDelivery => kind == SessionStop || kind == WeldingDetection
        case CurrentDemand => kind == PowerDelivery
        case WeldingDetection => kind == SessionStop
        case _ => false)
  }

  /** A wanted request of the station's own session. */
  predicate TakenUp(s: Secc, m: Message<Request>) {
    && m.body.Kind().Some? && Wanted(s.state, m.body.Kind().value)
    && (m.body.SessionSetupReq? || m.sessionId == s.sessionId)
  }

  lemma TakenUpIsAccepted(s: Secc, m: Message<Request>)
    ensures TakenUp(s, m) <==> Check(s.state, s.sessionId, m) == Accept
  {}

  // ---------------------------------------------------------------------
  // What the controller is asked and told
  // ---------------------------------------------------------------------

  /** The events of a request that was taken up. */
  function Happens(s: Secc, q: Request, e: Environment): seq<Event> {
    match q
    case ContractAuthenticationReq => [AuthorizationRead(e.accepted)]
    case ChargeParameterDiscoveryReq(mode) => if mode in s.modes then [ScheduleRead(e.schedules > 0)] else []
    case CableCheckReq(evOk) =>
      if !evOk then []
      else
        (if s.state.cableCheckStarted then [] else [CableCheckStarted]) +
        [if s.state.contactorsClosed then IsolationRead(e.isolation) else ContactorCloseRead(e.contactorClosed)]
    case PreChargeReq(evOk, voltage, current) =>
      if !evOk then []
      else
        [PresentCurrentRead(e.presentCurrent)] +
        if e.presentCurrent.Some? && e.presentCurrent.value <= 2.0 && current <= 2.0
        then [ChargingCommand(voltage, current, true, !e.commandTimesOut)] else []
    case PowerDeliveryReq(ready, hasParameter) =>
      if !hasParameter then []
      else if ready then [HlcSet(true)]
      else [HlcSet(false), ChargerStopped, ContactorOpenRead(e.contactorOpened)]
    case CurrentDemandReq(voltage, current) => [ChargingCommand(voltage, current, false, !e.commandTimesOut)]
    case _ => []
  }

  ghost predicate Logs(s: Secc, p: Secc, q: Request, e: Environment) {
    p.log == s.log + Happens(s, q, e)
  }

  lemma PowerDeliveryLogs(s: Secc, m: Message<Request>, e: Environment)
    requires s.state.phase == PowerDelivery && TakenUp(s, m)
    ensures Logs(s, ProcessPowerDelivery(s, m, e), m.body, e)
  {}

  lemma CableCheckLogs(s: Secc, m: Message<Request>, e: Environment)
    requires s.state.phase == CableCheck && TakenUp(s, m)
    ensures Logs(s, ProcessCableCheck(s, m, e), m.body, e)
  {}

  lemma PreChargeLogs(s: Secc, m: Message<Request>, e: Environment)
    requires s.state.phase == PreCharge && TakenUp(s, m)
    ensures Logs(s, ProcessPreCharge(s, m, e), m.body, e)
  {
    if m.body.PowerDeliveryReq? {
      PowerDeliveryLogs(s.Entering(PowerDelivery), m, e);
    }
  }

  lemma CurrentDemandLogs(s: Secc, m: Message<Request>, e: Environment)
    requires s.state.phase == CurrentDemand && TakenUp(s, m)
    ensures Logs(s, ProcessCurrentDemand(s, m, e), m.body, e)
  {
    if m.body.PowerDeliveryReq? {
      PowerDeliveryLogs(s.Entering(PowerDelivery), m, e);
    }
  }

  lemma OtherLogs(s: Secc, m: Message<Request>, e: Environment)
    requires !(s.state.phase in {CableCheck, PreCharge, PowerDelivery, CurrentDemand}) && TakenUp(s, m)
    ensures Logs(s, Process(s, m, e), m.body, e)
  {
    match s.state.phase {
      case SessionSetup =>
      case ServiceDiscovery =>
      case ServicePaymentSelection =>
      case ContractAuthentication =>
      case ChargeParameterDiscovery =>
      case WeldingDetection =>
      case SessionStop =>
    }
  }

  lemma RejectedLogs(s: Secc, m: Message<Request>, e: Environment)
    requires !TakenUp(s, m)
    ensures Process(s, m, e).log == s.log
  {
    match s.state.phase {
      case SessionSetup =>
      case ServiceDiscovery =>
      case ServicePaymentSelection =>
      case ContractAuthentication =>
      case ChargeParameterDiscovery =>
      case CableCheck =>
      case PreCharge =>
      case PowerDelivery =>
      case CurrentDemand =>
      case WeldingDetection =>
      case SessionStop =>
    }
  }

  lemma LoggingIsNotSeen(s: Secc, m: Message<Request>, e: Environment)
    ensures var t := s.Logged(Received(m.body));
            (TakenUp(t, m) <==> TakenUp(s, m)) && Happens(t, m.body, e) == Happens(s, m.body, e)
  {}

  /** The log of a live session grows by the request and by exactly what that request makes happen. */
  lemma EventsExactly(s: Secc, m: Message<Request>, e: Environment)
    requires s.status == Running
    ensures Receive(s, m, e).log ==
            s.log + [Received(m.body)] + if TakenUp(s, m) then Happens(s, m.body, e) else []
  {
    var t := s.Logged(Received(m.body));
    LoggingIsNotSeen(s, m, e);
    if !TakenUp(t, m) {
      RejectedLogs(t, m, e);
    } else {
      match t.state.phase {
        case CableCheck => CableCheckLogs(t, m, e);
        case PreCharge => PreChargeLogs(t, m, e);
        case PowerDelivery => PowerDeliveryLogs(t, m, e);
        case CurrentDemand => CurrentDemandLogs(t, m, e);
        case _ => OtherLogs(t, m, e);
      }
    }
  }

  // ---------------------------------------------------------------------
  // Charging commands over whole runs
  // ---------------------------------------------------------------------

  /** The last request received, if any. */
  function LastRequest(log: seq<Event>): Option<Request> {
    if log == [] then None
    else
      var ev := log[|log| - 1];
      if ev.Received? then Some(ev.request) else LastRequest(log[..|log| - 1])
  }

  /** The command asks for the voltage and the current of the request. */
  predicate Carries(ev: Event, q: Request)
    requires ev.ChargingCommand?
  {
    if ev.precharge then q.PreChargeReq? && q.targetVoltage == ev.voltage && q.targetCurrent == ev.current
    else q == CurrentDemandReq(ev.voltage, ev.current)
  }

  ghost predicate Obedient(log: seq<Event>) {
    forall k | 0 <= k < |log| && log[k].ChargingCommand? ::
      LastRequest(log[..k]).Some? && Carries(log[k], LastRequest(log[..k]).value)
  }

  lemma {:induction false} ObedientGrows(log: seq<Event>, ev: Event)
    requires Obedient(log)
    requires ev.ChargingCommand? ==> LastRequest(log).Some? && Carries(ev, LastRequest(log).value)
    ensures Obedient(log + [ev])
    ensures LastRequest(log + [ev]) == if ev.Received? then Some(ev.request) else LastRequest(log)
  {
    var next := log + [ev];
    assert next[..|log|] == log;
    assert forall k | 0 <= k < |log| :: next[k] == log[k] && next[..k] == log[..k];
  }

  /** Appending the events of a request one by one keeps the log obedient. */
  lemma {:induction false} ObedientAppends(log: seq<Event>, q: Request, more: seq<Event>)
    requires Obedient(log) && LastRequest(log) == Some(q)
    requires forall ev | ev in more :: !ev.Received? && (ev.ChargingCommand? ==> Carries(ev, q))
    ensures Obedient(log + more) && LastRequest(log + more) == Some(q)
  {
    if more == [] {
      assert log + more == log;
    } else {
      var init, ev := more[..|more| - 1], more[|more| - 1];
      ObedientAppends(log, q, init);
      ObedientGrows(log + init, ev);
      assert log + init + [ev] == log + more;
    }
  }

  lemma HappensCarries(s: Secc, q: Request, e: Environment)
    ensures forall ev | ev in Happens(s, q, e) :: !ev.Received? && (ev.ChargingCommand? ==> Carries(ev, q))
  {}

  /**
   In every run each charging command carries, in this order, the target voltage and the
   target current of the request received last: a CurrentDemandReq, or a PreChargeReq for
   a precharge command.
   */
  lemma {:induction false} CommandsCarryTheRequest(start: Secc, inputs: seq<Input>)
    requires start.log == []
    ensures Obedient(Run(start, inputs).log)
    decreases |inputs|
  {
    if inputs != [] {
      var last := inputs[|inputs| - 1];
      var s := Run(start, inputs[..|inputs| - 1]);
      CommandsCarryTheRequest(start, inputs[..|inputs| - 1]);
      if s.status == Running {
        var q := last.message.body;
        var more := if TakenUp(s, last.message) then Happens(s, q, last.env) else [];
        EventsExactly(s, last.message, last.env);
        ObedientGrows(s.log, Received(q));
        HappensCarries(s, q, last.env);
        ObedientAppends(s.log + [Received(q)], q, more);
      }
    }
  }

  /** Charging commands outside precharging. */
  function Commands(log: seq<Event>): nat {
    if log == [] then 0
    else
      var ev := log[|log| - 1];
      Commands(log[..|log| - 1]) + if ev.ChargingCommand? && !ev.precharge then 1 else 0
  }

  /** CurrentDemandReq that were taken up by a live session. */
  function Demands(start: Secc, inputs: seq<Input>): nat
    decreases |inputs|
  {
    if inputs == [] then 0
    else
      var before, last := inputs[..|inputs| - 1], inputs[|inputs| - 1];
      var s := Run(start, before);
      Demands(start, before) +
      if s.status == Running && last.message.body.CurrentDemandReq? && TakenUp(s, last.message) then 1 else 0
  }

  lemma {:induction false} CommandsAppend(a: seq<Event>, b: seq<Event>)
    ensures Commands(a + b) == Commands(a) + Commands(b)
  {
    if b == [] {
      assert a + b == a;
    } else {
      assert (a + b)[..|a + b| - 1] == a + b[..|b| - 1];
      CommandsAppend(a, b[..|b| - 1]);
    }
  }

  lemma {:induction false} NoCommands(log: seq<Event>)
    requires forall ev | ev in log :: ev.ChargingCommand? ==> ev.precharge
    ensures Commands(log) == 0
  {
    if log != [] {
      NoCommands(log[..|log| - 1]);
    }
  }

  lemma {:induction false} HappensCommands(s: Secc, q: Request, e: Environment)
    ensures Commands(Happens(s, q, e)) == if q.CurrentDemandReq? then 1 else 0
  {
    var happens := Happens(s, q, e);
    if q.CurrentDemandReq? {
      assert happens[..0] == [] && Commands([]) == 0;
    } else {
      NoCommands(happens);
    }
  }

  /** In every run there are exactly as many charging commands as CurrentDemandReq were taken up. */
  lemma {:induction false} OneCommandPerDemand(start: Secc, inputs: seq<Input>)
    requires start.log == []
    ensures Commands(Run(start, inputs).log) == Demands(start, inputs)
    decreases |inputs|
  {
    if inputs != [] {
      var last := inputs[|inputs| - 1];
      var s := Run(start, inputs[..|inputs| - 1]);
      OneCommandPerDemand(start, inputs[..|inputs| - 1]);
      if s.status == Running {
        var q := last.message.body;
        var more := if TakenUp(s, last.message) then Happens(s, q, last.env) else [];
        EventsExactly(s, last.message, last.env);
        CommandsAppend(s.log + [Received(q)], more);
        CommandsAppend(s.log, [Received(q)]);
        NoCommands([Received(q)]);
        HappensCommands(s, q, last.env);
        assert Commands([]) == 0;
      }
    }
  }

  // ---------------------------------------------------------------------
  // What the vehicle is answered
  // ---------------------------------------------------------------------

  /** What makes the station fail a request that it has taken up. */
  predicate Faulty(s: Secc, q: Request, e: Environment) {
    match q
    case CableCheckReq(evOk) =>
      || !evOk
      || (if s.state.contactorsClosed then e.isolation == Some(Fault) || e.isolation == Some(Invalid)
          else e.contactorClosed == Some(false))
    case PreChargeReq(evOk, _, current) =>
      || !evOk || current > 2.0 || e.commandTimesOut
      || e.presentCurrent.None? || e.presentCurrent.value > 2.0
    case PowerDeliveryReq(ready, _) => !ready && !e.contactorOpened
    case CurrentDemandReq(_, _) => e.commandTimesOut
    case _ => false
  }

  /** The response code, by the first thing that is wrong with the request. */
  function CodeOf(s: Secc, m: Message<Request>, e: Environment): ResponseCode
    requires m.body.Kind().Some?
  {
    var q := m.body;
    if !Wanted(s.state, q.Kind().value) then FailedSequenceError
    else if !q.SessionSetupReq? && m.sessionId != s.sessionId then FailedUnknownSession
    else if q.ChargeParameterDiscoveryReq? && q.mode !in s.modes then FailedWrongEnergyTransferMode
    else if q.ServicePaymentSelectionReq? && !q.eim then FailedPaymentSelectionInvalid
    else if q.ServicePaymentSelectionReq? && q.services == 0 then FailedServiceSelectionInvalid
    else if Faulty(s, q, e) then Failed
    else if !q.SessionSetupReq? then Ok
    else if m.sessionId != "00" && m.sessionId == s.sessionId then OkOldSessionJoined
    else OkNewSessionEstablished
  }

  /** What a positive response reports, and the state the station is in afterwards. */
  predicate Reports(s: Secc, q: Request, e: Environment, r: Response, after: Secc) {
    match r
    case SessionSetupRes(code) =>
      && after.state == Entered(ServiceDiscovery)
      && after.sessionId == if code == OkOldSessionJoined then s.sessionId else e.newSessionId
    case ServiceDiscoveryRes(_, eim, mode) =>
      eim && s.modes != [] && mode == s.modes[0] && after.state == Entered(ServicePaymentSelection)
    case ServicePaymentSelectionRes(_) => after.state == Entered(ContractAuthentication)
    case ContractAuthenticationRes(_, finished) =>
      && finished == e.accepted
      && after.state.phase == if e.accepted then ChargeParameterDiscovery else ContractAuthentication
    case ChargeParameterDiscoveryRes(_, finished, schedules) =>
      && schedules == e.schedules && (finished <==> e.schedules > 0)
      && after.state.phase == if finished then CableCheck else ChargeParameterDiscovery
    case CableCheckRes(_, finished, ready, level) =>
      && ready == e.evseReady && level == e.evseIsolation
      && (finished <==> s.state.contactorsClosed && (e.isolation == Some(Valid) || e.isolation == Some(Warning)))
      && after.state.phase == (if finished then PreCharge else CableCheck)
      && (!finished ==> after.state.contactorsClosed == (s.state.contactorsClosed || e.contactorClosed == Some(true)))
    case PreChargeRes(_, voltage) =>
      voltage == e.presentVoltage && after.state.phase == PreCharge && !after.state.expectFirst
    case PowerDeliveryRes(_) =>
      && q.PowerDeliveryReq? && after.hlc == q.ready
      && if q.ready then after.state == Entered(CurrentDemand)
         else after.state.phase == PowerDelivery && !after.state.expectFirst
    case CurrentDemandRes(_, ready) =>
      ready == e.evseReady && after.state.phase == CurrentDemand && !after.state.expectFirst
    case WeldingDetectionRes(_) => after.state.phase == WeldingDetection && !after.state.expectFirst
    case SessionStopRes(_) => after.status == Stopped
    case UnrecognisedRes => false
  }

  /** A live session's answer has the right code, and if that is positive reports what the controller has said. */
  ghost predicate Right(s: Secc, m: Message<Request>, e: Environment, p: Secc) {
    && p.status == Running && p.state.reply.Some? && m.body.Kind().Some?
    && var r := p.state.reply.value.body;
       && r.Kind() == m.body.Kind() && r.Kind() != None
       && r.code == CodeOf(s, m, e) && p.state.reply.value.sessionId == p.sessionId
       && (!r.code.Negative() ==> Reports(s, m.body, e, r, Advance(p)) && Advance(p).modes == s.modes)
  }

  lemma StoppingIsRight(s: Secc, p: Secc, m: Message<Request>, e: Environment)
    requires p.status == Running && m.body.Kind().Some? && CodeOf(s, m, e).Negative()
    ensures Right(s, m, e, p.Stopping(m.body, CodeOf(s, m, e)))
  {}

  lemma SetupIsRight(s: Secc, m: Message<Request>, e: Environment)
    requires s.status == Running && Answerable(s, m) && TakenUp(s, m)
    requires s.state.phase in {SessionSetup, ServiceDiscovery}
    ensures Right(s, m, e, Process(s, m, e))
  {}

  lemma PaymentIsRight(s: Secc, m: Message<Request>, e: Environment)
    requires s.status == Running && TakenUp(s, m) && s.state.phase == ServicePaymentSelection
    ensures Right(s, m, e, ProcessServicePaymentSelection(s, m))
  {
    if CodeOf(s, m, e).Negative() {
      StoppingIsRight(s, s, m, e);
    }
  }

  lemma AuthorizationIsRight(s: Secc, m: Message<Request>, e: Environment)
    requires s.status == Running && TakenUp(s, m) && s.state.phase == ContractAuthentication
    ensures Right(s, m, e, ProcessContractAuthentication(s, m, e))
  {}

  lemma ParametersAreRight(s: Secc, m: Message<Request>, e: Environment)
    requires s.status == Running && TakenUp(s, m) && s.state.phase == ChargeParameterDiscovery
    ensures Right(s, m, e, ProcessChargeParameterDiscovery(s, m, e))
  {
    if CodeOf(s, m, e).Negative() {
      StoppingIsRight(s, s, m, e);
    }
  }

  lemma IsolationIsRight(s: Secc, t: Secc, m: Message<Request>, e: Environment)
    requires t.status == Running && m.body == CableCheckReq(true) && TakenUp(s, m) && t.modes == s.modes
    requires s.state.phase == t.state.phase == CableCheck && s.state.contactorsClosed && t.state.contactorsClosed
    ensures Right(s, m, e, ReadIsolation(t, m, e))
  {
    var read := t.Logged(IsolationRead(e.isolation));
    if Faulty(s, m.body, e) {
      StoppingIsRight(s, read, m, e);
    }
  }

  lemma ContactorsAreRight(s: Secc, t: Secc, m: Message<Request>, e: Environment)
    requires t.status == Running && m.body == CableCheckReq(true) && TakenUp(s, m) && t.modes == s.modes
    requires s.state.phase == t.state.phase == CableCheck && !s.state.contactorsClosed && !t.state.contactorsClosed
    ensures Right(s, m, e, ReadContactors(t, m, e))
  {
    var read := t.Logged(ContactorCloseRead(e.contactorClosed));
    if Faulty(s, m.body, e) {
      StoppingIsRight(s, read, m, e);
    }
  }

  lemma CableCheckIsRight(s: Secc, m: Message<Request>, e: Environment)
    requires s.status == Running && TakenUp(s, m) && s.state.phase == CableCheck
    ensures Right(s, m, e, ProcessCableCheck(s, m, e))
  {
    if !m.body.evOk {
      StoppingIsRight(s, s, m, e);
    } else {
      var begun := if s.state.cableCheckStarted then s
                   else s.Logged(CableCheckStarted).(state := s.state.(cableCheckStarted := true));
      if s.state.contactorsClosed {
        IsolationIsRight(s, begun, m, e);
      } else {
        ContactorsAreRight(s, begun, m, e);
      }
    }
  }

  lemma StartIsRight(s: Secc, t: Secc, m: Message<Request>, e: Environment)
    requires t.status == Running && TakenUp(s, m) && m.body == PowerDeliveryReq(true, true) && t.modes == s.modes
    ensures Right(s, m, e, StartCharging(t))
  {}

  lemma StopIsRight(s: Secc, t: Secc, m: Message<Request>, e: Environment)
    requires t.status == Running && TakenUp(s, m) && m.body == PowerDeliveryReq(false, true) && t.modes == s.modes
    requires t.state.phase == PowerDelivery
    ensures Right(s, m, e, StopCharging(t, m, e))
  {
    if !e.contactorOpened {
      var off := t.Logged(HlcSet(false)).(hlc := false).Logged(ChargerStopped).Logged(ContactorOpenRead(false));
      StoppingIsRight(s, off, m, e);
    }
  }

  lemma PowerDeliveryIsRight(s: Secc, t: Secc, m: Message<Request>, e: Environment)
    requires t.status == Running && TakenUp(s, m) && m.body.PowerDeliveryReq? && m.body.hasParameter
    requires t.state.phase == PowerDelivery && t.modes == s.modes && t.sessionId == s.sessionId
    ensures Right(s, m, e, ProcessPowerDelivery(t, m, e))
  {
    assert Check(t.state, t.sessionId, m) == Accept;
    if m.body.ready {
      StartIsRight(s, t, m, e);
    } else {
      StopIsRight(s, t, m, e);
    }
  }

  lemma RampUpIsRight(s: Secc, m: Message<Request>, e: Environment)
    requires s.status == Running && TakenUp(s, m) && s.state.phase == PreCharge
    requires m.body.PreChargeReq? && m.body.evOk
    ensures Right(s, m, e, RampUp(s, m, e))
  {
    var read := s.Logged(PresentCurrentRead(e.presentCurrent));
    if Faulty(s, m.body, e) {
      StoppingIsRight(s, read, m, e);
      var command := ChargingCommand(m.body.targetVoltage, m.body.targetCurrent, true, !e.commandTimesOut);
      StoppingIsRight(s, read.Logged(command), m, e);
    }
  }

  lemma PreChargeIsRight(s: Secc, m: Message<Request>, e: Environment)
    requires s.status == Running && Answerable(s, m) && TakenUp(s, m) && s.state.phase == PreCharge
    ensures Right(s, m, e, ProcessPreCharge(s, m, e))
  {
    if m.body.PowerDeliveryReq? {
      PowerDeliveryIsRight(s, s.Entering(PowerDelivery), m, e);
    } else if !m.body.evOk {
      StoppingIsRight(s, s, m, e);
    } else {
      RampUpIsRight(s, m, e);
    }
  }

  lemma CurrentDemandIsRight(s: Secc, m: Message<Request>, e: Environment)
    requires s.status == Running && Answerable(s, m) && TakenUp(s, m) && s.state.phase == CurrentDemand
    ensures Right(s, m, e, ProcessCurrentDemand(s, m, e))
  {
    if m.body.PowerDeliveryReq? {
      PowerDeliveryIsRight(s, s.Entering(PowerDelivery), m, e);
    } else if e.commandTimesOut {
      var command := ChargingCommand(m.body.targetVoltage, m.body.targetCurrent, false, false);
      StoppingIsRight(s, s.Logged(command), m, e);
    }
  }

  lemma WeldingDetectionIsRight(s: Secc, m: Message<Request>, e: Environment)
    requires s.status == Running && TakenUp(s, m) && m.body.WeldingDetectionReq?
    ensures Right(s, m, e, Process(s, m, e))
  {
    if s.state.phase == PowerDelivery {
      assert Check(Entered(WeldingDetection), s.sessionId, m) == Accept;
    }
  }

  lemma SessionStopIsRight(s: Secc, m: Message<Request>, e: Environment)
    requires s.status == Running && TakenUp(s, m) && m.body.SessionStopReq?
    ensures Right(s, m, e, Process(s, m, e))
  {
    if s.state.phase != SessionStop {
      assert Check(Entered(SessionStop), s.sessionId, m) == Accept;
    }
  }

  lemma RejectionIsRight(s: Secc, m: Message<Request>, e: Environment)
    requires s.status == Running && m.body.Kind().Some? && !TakenUp(s, m)
    ensures Right(s, m, e, Process(s, m, e))
  {
    StoppingIsRight(s, s, m, e);
    TakenUpIsAccepted(s, m);
    match s.state.phase {
      case SessionSetup =>
      case ServiceDiscovery =>
      case ServicePaymentSelection =>
      case ContractAuthentication =>
      case ChargeParameterDiscovery =>
      case CableCheck =>
      case PreCharge =>
      case PowerDelivery =>
      case CurrentDemand =>
      case WeldingDetection =>
      case SessionStop =>
    }
  }

  /**
   Every answer of a live session has the code of the first thing that is wrong with its
   request, and a positive answer reports what the controller has just said and leaves the
   station in the state that belongs to it.
   */
  lemma AnswersAreRight(s: Secc, m: Message<Request>, e: Environment)
    requires s.status == Running && Answerable(s, m)
    ensures Right(s.Logged(Received(m.body)), m, e, Processed(s, m, e))
  {
    var t := s.Logged(Received(m.body));
    if !TakenUp(t, m) {
      RejectionIsRight(t, m, e);
    } else if m.body.WeldingDetectionReq? {
      WeldingDetectionIsRight(t, m, e);
    } else if m.body.SessionStopReq? {
      SessionStopIsRight(t, m, e);
    } else {
      match t.state.phase {
        case CableCheck => CableCheckIsRight(t, m, e);
        case PreCharge => PreChargeIsRight(t, m, e);
        case PowerDelivery => PowerDeliveryIsRight(t, t, m, e);
        case CurrentDemand => CurrentDemandIsRight(t, m, e);
        case SessionSetup => SetupIsRight(t, m, e);
        case ServiceDiscovery => SetupIsRight(t, m, e);
        case ServicePaymentSelection => PaymentIsRight(t, m, e);
        case ContractAuthentication => AuthorizationIsRight(t, m, e);
        case ChargeParameterDiscovery => ParametersAreRight(t, m, e);
      }
    }
  }
}
