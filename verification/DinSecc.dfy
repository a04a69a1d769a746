/**
 The charging station's side of a DIN SPEC 70121 session: the SECC states, the
 checks they share and the session engine that runs one received request.

 `Secc` and the functions over it specify a session; class `SeccSession` is the
 same machine with its fields updated in place, proved against them.
 */
module DinSecc {
  import opened Common
  import opened DinMessages

  /** What the session reads from and tells the EVSE controller, in order, after each request received. */
  datatype Event =
    | Received(request: Request)
    | AuthorizationRead(accepted: bool)
    | ScheduleRead(available: bool)
    | CableCheckStarted
    | ContactorCloseRead(closed: Option<bool>)
    | IsolationRead(level: Option<IsolationLevel>)
    | PresentCurrentRead(amps: Option<real>)
    | ChargingCommand(voltage: real, current: real, precharge: bool, delivered: bool)
    | HlcSet(on: bool)
    | ChargerStopped
    | ContactorOpenRead(isOpen: bool)

  /** The answers of the EVSE controller while one request is processed. */
  datatype Environment = Environment(
    newSessionId: string,
    accepted: bool,
    schedules: nat,
    contactorClosed: Option<bool>,
    isolation: Option<IsolationLevel>,
    presentCurrent: Option<real>,
    commandTimesOut: bool,
    contactorOpened: bool,
    evseReady: bool,
    evseIsolation: IsolationLevel,
    presentVoltage: real)

  /** A state object: its phase, its "expect first" and cable check flags, and its outcome. */
  datatype State = State(
    phase: Phase,
    expectFirst: bool,
    contactorsClosed: bool,
    cableCheckStarted: bool,
    next: Next,
    reply: Option<Message<Response>>)

  /** A freshly constructed state. */
  function Entered(phase: Phase): State {
    State(phase, true, false, false, Stay, None)
  }

  /** How long a request is waited for: every response is prepared with this timeout. */
  const SEQUENCE_TIMEOUT: real := 60.0

  /** Lost: reading from the connection timed out, or the peer closed it. */
  datatype Status = Running | Stopped | Crashed | Lost

  datatype Secc = Secc(
    state: State,
    sessionId: string,
    modes: seq<EnergyMode>,
    hlc: bool,
    status: Status,
    log: seq<Event>)
  {
    function Logged(e: Event): Secc {
      this.(log := log + [e])
    }

    /** `create_next_message`: the reply carries the session's current identifier. */
    function Replying(next: Next, body: Response): Secc {
      this.(state := state.(next := next, reply := Some(Message(sessionId, body))))
    }

    /** `stop_state_machine`: a request without a registered failure response raises instead. */
    function Stopping(request: Request, code: ResponseCode): Secc {
      match request.Kind()
      case Some(kind) => Replying(Terminate, FailedResponse(kind, code))
      case None => this.(status := Crashed)
    }

    function Entering(phase: Phase): Secc {
      this.(state := Entered(phase))
    }

    /** The receive loop ends without a message. */
    function Losing(): Secc {
      if status == Running then this.(status := Lost) else this
    }
  }

  datatype Verdict = Accept | Reject(code: ResponseCode)

  /** The request kinds a state accepts, the first being the one it insists on while `expectFirst` is set. */
  function Expected(phase: Phase): (r: seq<Phase>)
    ensures |r| > 0 && r[0] == phase
  {
    match phase
    case PreCharge => [PreCharge, PowerDelivery]
    case PowerDelivery => [PowerDelivery, SessionStop, WeldingDetection]
    case CurrentDemand => [CurrentDemand, PowerDelivery]
    case WeldingDetection => [WeldingDetection, SessionStop]
    case _ => [phase]
  }

  predicate Expects(state: State, kind: Phase) {
    if state.expectFirst then kind == state.phase else kind in Expected(state.phase)
  }

  predicate SessionMatches(sessionId: string, m: Message<Request>) {
    m.body.SessionSetupReq? || m.sessionId == sessionId
  }

  /** The outcome of `check_msg`. */
  function Check(state: State, sessionId: string, m: Message<Request>): Verdict {
    if m.body.Kind().None? || !Expects(state, m.body.Kind().value) then Reject(FailedSequenceError)
    else if !SessionMatches(sessionId, m) then Reject(FailedUnknownSession)
    else Accept
  }

  function ProcessSessionStop(s: Secc, m: Message<Request>): Secc {
    match Check(s.state, s.sessionId, m)
    case Reject(code) => s.Stopping(m.body, code)
    case Accept => s.Replying(Terminate, SessionStopRes(Ok))
  }

  function ProcessWeldingDetection(s: Secc, m: Message<Request>): Secc {
    match Check(s.state, s.sessionId, m)
    case Reject(code) => s.Stopping(m.body, code)
    case Accept =>
      if m.body.SessionStopReq? then ProcessSessionStop(s.Entering(SessionStop), m)
      else s.(state := s.state.(expectFirst := false)).Replying(Stay, WeldingDetectionRes(Ok))
  }

  function StartCharging(s: Secc): Secc {
    var on := s.Logged(HlcSet(true)).(hlc := true).Replying(Goto(CurrentDemand), PowerDeliveryRes(Ok));
    on.(state := on.state.(expectFirst := false))
  }

  /** HLC charging ends first, then the charger, and the contactors have to open. */
  function StopCharging(s: Secc, m: Message<Request>, e: Environment): Secc {
    var off := s.Logged(HlcSet(false)).(hlc := false)
               .Logged(ChargerStopped).Logged(ContactorOpenRead(e.contactorOpened));
    if !e.contactorOpened then off.Stopping(m.body, Failed)
    else
      var stay := off.Replying(Stay, PowerDeliveryRes(Ok));
      stay.(state := stay.state.(expectFirst := false))
  }

  function ProcessPowerDelivery(s: Secc, m: Message<Request>, e: Environment): Secc {
    match Check(s.state, s.sessionId, m)
    case Reject(code) => s.Stopping(m.body, code)
    case Accept =>
      if m.body.SessionStopReq? then ProcessSessionStop(s.Entering(SessionStop), m)
      else if m.body.WeldingDetectionReq? then ProcessWeldingDetection(s.Entering(WeldingDetection), m)
      else if !m.body.PowerDeliveryReq? || !m.body.hasParameter then s.(status := Crashed)
      else if m.body.ready then StartCharging(s) else StopCharging(s, m, e)
  }

  function ProcessCurrentDemand(s: Secc, m: Message<Request>, e: Environment): Secc {
    match Check(s.state, s.sessionId, m)
    case Reject(code) => s.Stopping(m.body, code)
    case Accept =>
      if m.body.PowerDeliveryReq? then ProcessPowerDelivery(s.Entering(PowerDelivery), m, e)
      else if !m.body.CurrentDemandReq? then s.(status := Crashed)
      else
        var told := s.Logged(ChargingCommand(m.body.targetVoltage, m.body.targetCurrent, false, !e.commandTimesOut));
        if e.commandTimesOut then told.Stopping(m.body, Failed)
        else
          var stay := told.Replying(Stay, CurrentDemandRes(Ok, e.evseReady));
          stay.(state := stay.state.(expectFirst := false))
  }

  /** Precharging is commanded only while at most 2 A flow and at most 2 A are asked for. */
  function RampUp(s: Secc, m: Message<Request>, e: Environment): Secc
    requires m.body.PreChargeReq?
  {
    var read := s.Logged(PresentCurrentRead(e.presentCurrent));
    if e.presentCurrent.None? then read.Stopping(m.body, Failed)
    else if e.presentCurrent.value > 2.0 || m.body.targetCurrent > 2.0 then read.Stopping(m.body, Failed)
    else
      var told := read.Logged(ChargingCommand(m.body.targetVoltage, m.body.targetCurrent, true, !e.commandTimesOut));
      if e.commandTimesOut then told.Stopping(m.body, Failed)
      else
        var stay := told.Replying(Stay, PreChargeRes(Ok, e.presentVoltage));
        stay.(state := stay.state.(expectFirst := false))
  }

  function ProcessPreCharge(s: Secc, m: Message<Request>, e: Environment): Secc {
    match Check(s.state, s.sessionId, m)
    case Reject(code) => s.Stopping(m.body, code)
    case Accept =>
      if m.body.PowerDeliveryReq? then ProcessPowerDelivery(s.Entering(PowerDelivery), m, e)
      else if !m.body.PreChargeReq? then s.(status := Crashed)
      else if !m.body.evOk then s.Stopping(m.body, Failed)
      else RampUp(s, m, e)
  }

  /** With the contactors closed, the isolation level decides whether to go on, wait or stop. */
  function ReadIsolation(s: Secc, m: Message<Request>, e: Environment): Secc {
    var read := s.Logged(IsolationRead(e.isolation));
    if e.isolation == Some(Valid) || e.isolation == Some(Warning) then
      read.Replying(Goto(PreCharge), CableCheckRes(Ok, true, e.evseReady, e.evseIsolation))
    else if e.isolation == Some(Fault) || e.isolation == Some(Invalid) then
      read.Stopping(m.body, Failed)
    else
      read.Replying(Stay, CableCheckRes(Ok, false, e.evseReady, e.evseIsolation))
  }

  /** Until the contactors are known to be closed the check cannot finish. */
  function ReadContactors(s: Secc, m: Message<Request>, e: Environment): Secc {
    var read := s.Logged(ContactorCloseRead(e.contactorClosed));
    match e.contactorClosed
    case Some(false) => read.Stopping(m.body, Failed)
    case Some(true) =>
      read.(state := read.state.(contactorsClosed := true))
      .Replying(Stay, CableCheckRes(Ok, false, e.evseReady, e.evseIsolation))
    case None => read.Replying(Stay, CableCheckRes(Ok, false, e.evseReady, e.evseIsolation))
  }

  function ProcessCableCheck(s: Secc, m: Message<Request>, e: Environment): Secc {
    match Check(s.state, s.sessionId, m)
    case Reject(code) => s.Stopping(m.body, code)
    case Accept =>
      if !m.body.CableCheckReq? then s.(status := Crashed)
      else if !m.body.evOk then s.Stopping(m.body, Failed)
      else
        var begun := if s.state.cableCheckStarted then s
                     else s.Logged(CableCheckStarted).(state := s.state.(cableCheckStarted := true));
        if begun.state.contactorsClosed then ReadIsolation(begun, m, e) else ReadContactors(begun, m, e)
  }

  function ProcessChargeParameterDiscovery(s: Secc, m: Message<Request>, e: Environment): Secc {
    match Check(s.state, s.sessionId, m)
    case Reject(code) => s.Stopping(m.body, code)
    case Accept =>
      if !m.body.ChargeParameterDiscoveryReq? then s.(status := Crashed)
      else if m.body.mode !in s.modes then s.Stopping(m.body, FailedWrongEnergyTransferMode)
      else
        var read := s.Logged(ScheduleRead(e.schedules > 0));
        if e.schedules > 0 then read.Replying(Goto(CableCheck), ChargeParameterDiscoveryRes(Ok, true, e.schedules))
        else read.Replying(Stay, ChargeParameterDiscoveryRes(Ok, false, 0))
  }

  function ProcessContractAuthentication(s: Secc, m: Message<Request>, e: Environment): Secc {
    match Check(s.state, s.sessionId, m)
    case Reject(code) => s.Stopping(m.body, code)
    case Accept =>
      var read := s.Logged(AuthorizationRead(e.accepted));
      if e.accepted then read.Replying(Goto(ChargeParameterDiscovery), ContractAuthenticationRes(Ok, true))
      else read.Replying(Stay, ContractAuthenticationRes(Ok, false))
  }

  function ProcessServicePaymentSelection(s: Secc, m: Message<Request>): Secc {
    match Check(s.state, s.sessionId, m)
    case Reject(code) => s.Stopping(m.body, code)
    case Accept =>
      if !m.body.ServicePaymentSelectionReq? then s.(status := Crashed)
      else if !m.body.eim then s.Stopping(m.body, FailedPaymentSelectionInvalid)
      else if m.body.services == 0 then s.Stopping(m.body, FailedServiceSelectionInvalid)
      else s.Replying(Goto(ContractAuthentication), ServicePaymentSelectionRes(Ok))
  }

  function ProcessServiceDiscovery(s: Secc, m: Message<Request>): Secc {
    match Check(s.state, s.sessionId, m)
    case Reject(code) => s.Stopping(m.body, code)
    case Accept =>
      if s.modes == [] then s.(status := Crashed)
      else s.Replying(Goto(ServicePaymentSelection), ServiceDiscoveryRes(Ok, true, s.modes[0]))
  }

  function ProcessSessionSetup(s: Secc, m: Message<Request>, e: Environment): Secc {
    match Check(s.state, s.sessionId, m)
    case Reject(code) => s.Stopping(m.body, code)
    case Accept =>
      if m.sessionId != "00" && m.sessionId == s.sessionId then
        s.Replying(Goto(ServiceDiscovery), SessionSetupRes(OkOldSessionJoined))
      else
        s.(sessionId := e.newSessionId).Replying(Goto(ServiceDiscovery), SessionSetupRes(OkNewSessionEstablished))
  }

  /** `process_message` of the current state. */
  function Process(s: Secc, m: Message<Request>, e: Environment): Secc {
    match s.state.phase
    case SessionSetup => ProcessSessionSetup(s, m, e)
    case ServiceDiscovery => ProcessServiceDiscovery(s, m)
    case ServicePaymentSelection => ProcessServicePaymentSelection(s, m)
    case ContractAuthentication => ProcessContractAuthentication(s, m, e)
    case ChargeParameterDiscovery => ProcessChargeParameterDiscovery(s, m, e)
    case CableCheck => ProcessCableCheck(s, m, e)
    case PreCharge => ProcessPreCharge(s, m, e)
    case PowerDelivery => ProcessPowerDelivery(s, m, e)
    case CurrentDemand => ProcessCurrentDemand(s, m, e)
    case WeldingDetection => ProcessWeldingDetection(s, m)
    case SessionStop => ProcessSessionStop(s, m)
  }

  /** The session after the outcome of a processed request has been acted upon. */
  function Advance(s: Secc): Secc {
    if s.status != Running then s
    else match s.state.next
      case Stay => if s.state.reply.None? then s.(status := Crashed) else s
      case Goto(phase) => if s.state.reply.None? then s.(status := Crashed) else s.Entering(phase)
      case Terminate => s.(status := Stopped)
  }

  function Processed(s: Secc, m: Message<Request>, e: Environment): Secc {
    Process(s.Logged(Received(m.body)), m, e)
  }

  /** One turn of `rcv_loop` on a live session; a session that has ended reads nothing. */
  function Receive(s: Secc, m: Message<Request>, e: Environment): Secc {
    if s.status != Running then s else Advance(Processed(s, m, e))
  }

  /** The response that turn writes to the connection, if any. */
  function Answer(s: Secc, m: Message<Request>, e: Environment): Option<Message<Response>> {
    if s.status != Running || Processed(s, m, e).status != Running then None
    else Processed(s, m, e).state.reply
  }

  function Initial(sessionId: string, modes: seq<EnergyMode>, hlc: bool): Secc {
    Secc(Entered(SessionSetup), sessionId, modes, hlc, Running, [])
  }

  /** A request together with the controller's answers while it is processed. */
  datatype Input = Input(message: Message<Request>, env: Environment)

  /** The session after a whole sequence of requests. */
  function Run(s: Secc, inputs: seq<Input>): Secc
    decreases |inputs|
  {
    if inputs == [] then s
    else
      var last := inputs[|inputs| - 1];
      Receive(Run(s, inputs[..|inputs| - 1]), last.message, last.env)
  }

  /** A running SECC session; entering a state replaces the current one. */
  class SeccSession {
    const modes: seq<EnergyMode>
    var phase: Phase
    var expectFirst: bool
    var contactorsClosed: bool
    var cableCheckStarted: bool
    var next: Next
    var reply: Option<Message<Response>>
    var sessionId: string
    var hlc: bool
    var status: Status
    var log: seq<Event>

    ghost function Model(): Secc
      reads this
    {
      Secc(State(phase, expectFirst, contactorsClosed, cableCheckStarted, next, reply),
           sessionId, modes, hlc, status, log)
    }

    constructor (sessionId: string, modes: seq<EnergyMode>, hlc: bool)
      ensures Model() == Initial(sessionId, modes, hlc)
    {
      this.modes := modes;
      this.sessionId := sessionId;
      this.hlc := hlc;
      phase, expectFirst, contactorsClosed, cableCheckStarted := SessionSetup, true, false, false;
      next, reply, status, log := Stay, None, Running, [];
    }

    method Enter(p: Phase)
      modifies this
      ensures Model() == old(Model()).Entering(p)
    {
      phase, expectFirst, contactorsClosed, cableCheckStarted := p, true, false, false;
      next, reply := Stay, None;
    }

    method Log(e: Event)
      modifies `log
      ensures Model() == old(Model()).Logged(e)
    {
      log := log + [e];
    }

    method CreateNextMessage(n: Next, body: Response)
      modifies `next, `reply
      ensures Model() == old(Model()).Replying(n, body)
    {
      next := n;
      reply := Some(Message(sessionId, body));
    }

    method StopStateMachine(request: Request, code: ResponseCode)
      modifies this
      ensures Model() == old(Model()).Stopping(request, code)
    {
      match request.Kind() {
        case Some(kind) => CreateNextMessage(Terminate, FailedResponse(kind, code));
        case None => status := Crashed;
      }
    }

    /** The shared check: the first expected kind alone, or any of them, and then the session identifier. */
    method CheckMsg(m: Message<Request>, expected: seq<Phase>, first: bool) returns (accepted: bool)
      requires expected == Expected(phase) && first == expectFirst
      modifies this
      ensures accepted <==> Check(old(Model()).state, old(sessionId), m).Accept?
      ensures accepted ==> Model() == old(Model())
      ensures !accepted ==> Model() == old(Model()).Stopping(m.body, Check(old(Model()).state, old(sessionId), m).code)
    {
      var matched := false;
      var idx := 0;
      while idx < |expected| && !matched
        invariant 0 <= idx <= |expected|
        invariant Model() == old(Model())
        invariant idx > 0 ==> first ==> m.body.Kind() == Some(expected[0])
        invariant matched <==> exists j :: 0 <= j < idx && m.body.Kind() == Some(expected[j])
      {
        if idx == 0 && first && m.body.Kind() != Some(expected[0]) {
          StopStateMachine(m.body, FailedSequenceError);
          return false;
        }
        if m.body.Kind() == Some(expected[idx]) {
          matched := true;
        }
        idx := idx + 1;
      }
      if !matched {
        StopStateMachine(m.body, FailedSequenceError);
        return false;
      }
      if !m.body.SessionSetupReq? && m.sessionId != sessionId {
        StopStateMachine(m.body, FailedUnknownSession);
        return false;
      }
      return true;
    }

    method DoSessionStop(m: Message<Request>)
      requires phase == SessionStop
      modifies this
      ensures Model() == ProcessSessionStop(old(Model()), m)
    {
      var accepted := CheckMsg(m, [SessionStop], expectFirst);
      if accepted {
        CreateNextMessage(Terminate, SessionStopRes(Ok));
      }
    }

    method DoWeldingDetection(m: Message<Request>)
      requires phase == WeldingDetection
      modifies this
      ensures Model() == ProcessWeldingDetection(old(Model()), m)
    {
      var accepted := CheckMsg(m, [WeldingDetection, SessionStop], expectFirst);
      if !accepted {
        return;
      }
      if m.body.SessionStopReq? {
        Enter(SessionStop);
        DoSessionStop(m);
        return;
      }
      expectFirst := false;
      CreateNextMessage(Stay, WeldingDetectionRes(Ok));
    }

    method DoPowerDelivery(m: Message<Request>, e: Environment)
      requires phase == PowerDelivery
      modifies this
      ensures Model() == ProcessPowerDelivery(old(Model()), m, e)
    {
      var accepted := CheckMsg(m, [PowerDelivery, SessionStop, WeldingDetection], expectFirst);
      if !accepted {
        return;
      }
      if m.body.SessionStopReq? {
        Enter(SessionStop);
        DoSessionStop(m);
        return;
      }
      if m.body.WeldingDetectionReq? {
        Enter(WeldingDetection);
        DoWeldingDetection(m);
        return;
      }
      if !m.body.PowerDeliveryReq? || !m.body.hasParameter {
        status := Crashed;
        return;
      }
      var nextState := Stay;
      if m.body.ready {
        Log(HlcSet(true));
        hlc := true;
        nextState := Goto(CurrentDemand);
      } else {
        Log(HlcSet(false));
        hlc := false;
        Log(ChargerStopped);
        Log(ContactorOpenRead(e.contactorOpened));
        if !e.contactorOpened {
          StopStateMachine(m.body, Failed);
          return;
        }
      }
      CreateNextMessage(nextState, PowerDeliveryRes(Ok));
      expectFirst := false;
    }

    method DoCurrentDemand(m: Message<Request>, e: Environment)
      requires phase == CurrentDemand
      modifies this
      ensures Model() == ProcessCurrentDemand(old(Model()), m, e)
    {
      var accepted := CheckMsg(m, [CurrentDemand, PowerDelivery], expectFirst);
      if !accepted {
        return;
      }
      if m.body.PowerDeliveryReq? {
        Enter(PowerDelivery);
        DoPowerDelivery(m, e);
        return;
      }
      if !m.body.CurrentDemandReq? {
        status := Crashed;
        return;
      }
      Log(ChargingCommand(m.body.targetVoltage, m.body.targetCurrent, false, !e.commandTimesOut));
      if e.commandTimesOut {
        StopStateMachine(m.body, Failed);
        return;
      }
      CreateNextMessage(Stay, CurrentDemandRes(Ok, e.evseReady));
      expectFirst := false;
    }

    method DoPreCharge(m: Message<Request>, e: Environment)
      requires phase == PreCharge
      modifies this
      ensures Model() == ProcessPreCharge(old(Model()), m, e)
    {
      var accepted := CheckMsg(m, [PreCharge, PowerDelivery], expectFirst);
      if !accepted {
        return;
      }
      if m.body.PowerDeliveryReq? {
        Enter(PowerDelivery);
        DoPowerDelivery(m, e);
        return;
      }
      if !m.body.PreChargeReq? {
        status := Crashed;
        return;
      }
      if !m.body.evOk {
        StopStateMachine(m.body, Failed);
        return;
      }
      Log(PresentCurrentRead(e.presentCurrent));
      if e.presentCurrent.None? {
        StopStateMachine(m.body, Failed);
        return;
      }
      if e.presentCurrent.value > 2.0 || m.body.targetCurrent > 2.0 {
        StopStateMachine(m.body, Failed);
        return;
      }
      Log(ChargingCommand(m.body.targetVoltage, m.body.targetCurrent, true, !e.commandTimesOut));
      if e.commandTimesOut {
        StopStateMachine(m.body, Failed);
        return;
      }
      CreateNextMessage(Stay, PreChargeRes(Ok, e.presentVoltage));
      expectFirst := false;
    }

    method DoCableCheck(m: Message<Request>, e: Environment)
      requires phase == CableCheck
      modifies this
      ensures Model() == ProcessCableCheck(old(Model()), m, e)
    {
      var accepted := CheckMsg(m, [CableCheck], expectFirst);
      if !accepted {
        return;
      }
      if !m.body.CableCheckReq? {
        status := Crashed;
        return;
      }
      if !m.body.evOk {
        StopStateMachine(m.body, Failed);
        return;
      }
      var finished, nextState := false, Stay;
      if !cableCheckStarted {
        Log(CableCheckStarted);
        cableCheckStarted := true;
      }
      if contactorsClosed {
        Log(IsolationRead(e.isolation));
        if e.isolation == Some(Valid) || e.isolation == Some(Warning) {
          finished, nextState := true, Goto(PreCharge);
        } else if e.isolation == Some(Fault) || e.isolation == Some(Invalid) {
          StopStateMachine(m.body, Failed);
          return;
        }
      } else {
        Log(ContactorCloseRead(e.contactorClosed));
        if e.contactorClosed != None {
          if e.contactorClosed.value {
            contactorsClosed := true;
          } else {
            StopStateMachine(m.body, Failed);
            return;
          }
        }
      }
      CreateNextMessage(nextState, CableCheckRes(Ok, finished, e.evseReady, e.evseIsolation));
    }

    method DoChargeParameterDiscovery(m: Message<Request>, e: Environment)
      requires phase == ChargeParameterDiscovery
      modifies this
      ensures Model() == ProcessChargeParameterDiscovery(old(Model()), m, e)
    {
      var accepted := CheckMsg(m, [ChargeParameterDiscovery], expectFirst);
      if !accepted {
        return;
      }
      if !m.body.ChargeParameterDiscoveryReq? {
        status := Crashed;
        return;
      }
      if m.body.mode !in modes {
        StopStateMachine(m.body, FailedWrongEnergyTransferMode);
        return;
      }
      Log(ScheduleRead(e.schedules > 0));
      var finished, nextState := false, Stay;
      if e.schedules > 0 {
        finished, nextState := true, Goto(CableCheck);
      }
      CreateNextMessage(nextState, ChargeParameterDiscoveryRes(Ok, finished, e.schedules));
    }

    method DoContractAuthentication(m: Message<Request>, e: Environment)
      requires phase == ContractAuthentication
      modifies this
      ensures Model() == ProcessContractAuthentication(old(Model()), m, e)
    {
      var accepted := CheckMsg(m, [ContractAuthentication], expectFirst);
      if !accepted {
        return;
      }
      Log(AuthorizationRead(e.accepted));
      var finished, nextState := false, Stay;
      if e.accepted {
        finished, nextState := true, Goto(ChargeParameterDiscovery);
      }
      CreateNextMessage(nextState, ContractAuthenticationRes(Ok, finished));
    }

    method DoServicePaymentSelection(m: Message<Request>)
      requires phase == ServicePaymentSelection
      modifies this
      ensures Model() == ProcessServicePaymentSelection(old(Model()), m)
    {
      var accepted := CheckMsg(m, [ServicePaymentSelection], expectFirst);
      if !accepted {
        return;
      }
      if !m.body.ServicePaymentSelectionReq? {
        status := Crashed;
        return;
      }
      if !m.body.eim {
        StopStateMachine(m.body, FailedPaymentSelectionInvalid);
        return;
      }
      if m.body.services == 0 {
        StopStateMachine(m.body, FailedServiceSelectionInvalid);
        return;
      }
      CreateNextMessage(Goto(ContractAuthentication), ServicePaymentSelectionRes(Ok));
    }

    method DoServiceDiscovery(m: Message<Request>)
      requires phase == ServiceDiscovery
      modifies this
      ensures Model() == ProcessServiceDiscovery(old(Model()), m)
    {
      var accepted := CheckMsg(m, [ServiceDiscovery], expectFirst);
      if !accepted {
        return;
      }
      if modes == [] {
        status := Crashed;
        return;
      }
      CreateNextMessage(Goto(ServicePaymentSelection), ServiceDiscoveryRes(Ok, true, modes[0]));
    }

    method DoSessionSetup(m: Message<Request>, e: Environment)
      requires phase == SessionSetup
      modifies this
      ensures Model() == ProcessSessionSetup(old(Model()), m, e)
    {
      var accepted := CheckMsg(m, [SessionSetup], expectFirst);
      if !accepted {
        return;
      }
      var id, code := e.newSessionId, OkNewSessionEstablished;
      if m.sessionId == "00" {
      } else if m.sessionId == sessionId {
        id, code := sessionId, OkOldSessionJoined;
      }
      sessionId := id;
      CreateNextMessage(Goto(ServiceDiscovery), SessionSetupRes(code));
    }

    method ProcessMessage(m: Message<Request>, e: Environment)
      modifies this
      ensures Model() == Process(old(Model()), m, e)
    {
      match phase {
        case SessionSetup => DoSessionSetup(m, e);
        case ServiceDiscovery => DoServiceDiscovery(m);
        case ServicePaymentSelection => DoServicePaymentSelection(m);
        case ContractAuthentication => DoContractAuthentication(m, e);
        case ChargeParameterDiscovery => DoChargeParameterDiscovery(m, e);
        case CableCheck => DoCableCheck(m, e);
        case PreCharge => DoPreCharge(m, e);
        case PowerDelivery => DoPowerDelivery(m, e);
        case CurrentDemand => DoCurrentDemand(m, e);
        case WeldingDetection => DoWeldingDetection(m);
        case SessionStop => DoSessionStop(m);
      }
    }

    /** The read of the receive loop timed out, or the peer closed the connection. */
    method EndRead()
      modifies this
      ensures Model() == old(Model()).Losing()
    {
      if status == Running {
        status := Lost;
      }
    }

    /** One turn of the receive loop: process, send what the state prepared, move on. */
    method Turn(m: Message<Request>, e: Environment) returns (sent: Option<Message<Response>>)
      modifies this
      ensures Model() == Receive(old(Model()), m, e)
      ensures sent == Answer(old(Model()), m, e)
    {
      if status != Running {
        return None;
      }
      Log(Received(m.body));
      ProcessMessage(m, e);
      if status != Running {
        return None;
      }
      sent := reply;
      if next == Terminate {
        status := Stopped;
      } else if reply == None {
        status := Crashed;
      } else if next.Goto? {
        Enter(next.phase);
      }
    }
  }
}
