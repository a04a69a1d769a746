/**
 The vehicle's side of a DIN SPEC 70121 session: the EVCC states, the checks
 they share and the session engine that runs one received response.

 `Evcc` and the functions over it specify a session; class `EvccSession` is the
 same machine with its fields updated in place, proved against them.
 */
module DinEvcc {
  import opened Common
  import opened DinMessages
  import opened EvController

  const SEQUENCE_TIMEOUT: real := 60.0
  const CABLE_CHECK_TIMEOUT: real := 40.0
  const PRE_CHARGE_TIMEOUT: real := 7.0

  /** How long the answer to a request is waited for. */
  const REQUEST_TIMEOUT: real := 2.0
  const CURRENT_DEMAND_TIMEOUT: real := 0.25

  /** Lost: reading from the connection timed out, or the peer closed it. */
  datatype Status = Running | Terminated | Crashed | Lost

  /**
   `pending` is the message the current state object last prepared: it is empty in
   a freshly entered state and survives when a state stays in place. `timeout` is how
   long the next message is waited for, `stopReason` whether the session ends in success.
   */
  datatype Evcc = Evcc(
    phase: Phase,
    next: Next,
    pending: Option<Message<Request>>,
    sessionId: string,
    ongoingTimer: real,
    mode: EnergyMode,
    services: nat,
    ctrl: Controller,
    status: Status,
    lastSent: Option<Message<Request>>,
    timeout: real,
    stopReason: Option<bool>)
  {
    /** `create_next_message`: the request carries the session's current identifier. */
    function Preparing(n: Next, body: Request, t: real): Evcc {
      this.(next := n, pending := Some(Message(sessionId, body)), timeout := t)
    }

    /** `stop_state_machine`: besides the reason only the next state changes; a pending message stays pending. */
    function Stopping(): Evcc {
      this.(next := Terminate, stopReason := Some(false))
    }

    /** The regular end, after a positive SessionStopRes. */
    function Finishing(): Evcc {
      this.(next := Terminate, stopReason := Some(true))
    }

    /** The receive loop ends without a message. */
    function Losing(): Evcc {
      if status == Running then this.(status := Lost, stopReason := Some(false)) else this
    }

    function Entering(p: Phase): Evcc {
      this.(phase := p, next := Stay, pending := None)
    }
  }

  /** The outcome of `check_msg`. */
  predicate Accepts(s: Evcc, m: Message<Response>) {
    && m.body.Kind() == Some(s.phase)
    && !m.body.code.Negative()
    && (m.body.SessionSetupRes? || m.sessionId == s.sessionId)
  }

  function ProcessSessionSetup(s: Evcc, m: Message<Response>): Evcc {
    s.(sessionId := m.sessionId).Preparing(Goto(ServiceDiscovery), ServiceDiscoveryReq, REQUEST_TIMEOUT)
  }

  function ProcessServiceDiscovery(s: Evcc, m: Message<Response>): Evcc
    requires m.body.ServiceDiscoveryRes?
  {
    var selected := s.(services := s.services + 1);
    if !m.body.eimOffered || m.body.offeredMode != s.mode then selected.Stopping()
    else
      selected.Preparing(
        Goto(ServicePaymentSelection), ServicePaymentSelectionReq(true, selected.services), REQUEST_TIMEOUT)
  }

  /** Only the two DC modes of DIN SPEC 70121 can be put into a ChargeParameterDiscoveryReq. */
  function AskingForParameters(s: Evcc, n: Next, t: real): Evcc {
    if s.mode == DcCore || s.mode == DcExtended then s.Preparing(n, ChargeParameterDiscoveryReq(s.mode), t)
    else s.(status := Crashed)
  }

  function ProcessContractAuthentication(s: Evcc, m: Message<Response>, now: real): Evcc
    requires m.body.ContractAuthenticationRes?
  {
    if s.ongoingTimer > 0.0 && now - s.ongoingTimer > SEQUENCE_TIMEOUT then s.Stopping()
    else
      var timed := if s.ongoingTimer == -1.0 then s.(ongoingTimer := now) else s;
      if m.body.finished then AskingForParameters(timed, Goto(ChargeParameterDiscovery), REQUEST_TIMEOUT)
      else timed.Preparing(Stay, ContractAuthenticationReq, REQUEST_TIMEOUT)
  }

  function ProcessChargeParameterDiscovery(s: Evcc, m: Message<Response>, now: real): Evcc
    requires m.body.ChargeParameterDiscoveryRes?
  {
    if m.body.finished then
      if m.body.schedules == 0 then s.(ongoingTimer := -1.0, status := Crashed)
      else s.(ongoingTimer := -1.0).Preparing(Goto(CableCheck), CableCheckReq(true), REQUEST_TIMEOUT)
    else if s.ongoingTimer > 0.0 && now - s.ongoingTimer > SEQUENCE_TIMEOUT then s.Stopping()
    else
      var timed := if s.ongoingTimer == -1.0 then s.(ongoingTimer := now) else s;
      AskingForParameters(timed, Stay, SEQUENCE_TIMEOUT)
  }

  function ProcessCableCheck(s: Evcc, m: Message<Response>, now: real): Evcc
    requires m.body.CableCheckRes?
  {
    if m.body.finished then
      var reset := s.(ongoingTimer := -1.0);
      if m.body.evseReady && m.body.isolation == Valid then
        reset.Preparing(Goto(PreCharge), PreChargeReq(true, TARGET_VOLTAGE, TARGET_CURRENT), REQUEST_TIMEOUT)
      else reset.Stopping()
    else if s.ongoingTimer >= 0.0 && now - s.ongoingTimer > CABLE_CHECK_TIMEOUT then s.Stopping()
    else
      var timed := if s.ongoingTimer == -1.0 then s.(ongoingTimer := now) else s;
      timed.Preparing(Stay, CableCheckReq(true), REQUEST_TIMEOUT)
  }

  function ProcessPreCharge(s: Evcc, m: Message<Response>, now: real): Evcc
    requires m.body.PreChargeRes?
  {
    var checked := s.(ctrl := s.ctrl.AfterPrechargeCheck(m.body.presentVoltage));
    if s.ctrl.Precharged(m.body.presentVoltage) then
      checked.(ongoingTimer := -1.0, ctrl := checked.ctrl.AfterContinue())
      .Preparing(Goto(PowerDelivery), PowerDeliveryReq(true, true), REQUEST_TIMEOUT)
    else if s.ongoingTimer >= 0.0 && now - s.ongoingTimer > PRE_CHARGE_TIMEOUT then checked.Stopping()
    else
      var timed := if s.ongoingTimer < 0.0 then checked.(ongoingTimer := now) else checked;
      timed.Preparing(Stay, PreChargeReq(true, TARGET_VOLTAGE, TARGET_CURRENT), REQUEST_TIMEOUT)
  }

  function ProcessPowerDelivery(s: Evcc): Evcc {
    var asked := s.(ctrl := s.ctrl.AfterContinue());
    if s.ctrl.Continues() then
      asked.Preparing(Goto(CurrentDemand), CurrentDemandReq(TARGET_VOLTAGE, TARGET_CURRENT), CURRENT_DEMAND_TIMEOUT)
    else asked.Preparing(Goto(WeldingDetection), WeldingDetectionReq, REQUEST_TIMEOUT)
  }

  function StopCharging(s: Evcc): Evcc {
    s.(ctrl := s.ctrl.(completed := true).AfterContinue())
    .Preparing(Goto(PowerDelivery), PowerDeliveryReq(false, true), REQUEST_TIMEOUT)
  }

  function ProcessCurrentDemand(s: Evcc, m: Message<Response>): Evcc
    requires m.body.CurrentDemandRes?
  {
    if !m.body.evseReady then StopCharging(s)
    else
      var asked := s.(ctrl := s.ctrl.AfterContinue());
      if s.ctrl.Continues() then
        asked.Preparing(Stay, CurrentDemandReq(TARGET_VOLTAGE, TARGET_CURRENT), CURRENT_DEMAND_TIMEOUT)
      else StopCharging(asked)
  }

  function ProcessWeldingDetection(s: Evcc, now: real): Evcc {
    if s.ongoingTimer > 0.0 && now - s.ongoingTimer > SEQUENCE_TIMEOUT then s.Stopping()
    else
      var timed := if s.ongoingTimer == -1.0 then s.(ongoingTimer := now) else s;
      var checked := timed.(ctrl := s.ctrl.AfterWeldingCheck());
      if s.ctrl.WeldingFinished() then checked.Preparing(Goto(SessionStop), SessionStopReq, REQUEST_TIMEOUT)
      else checked.Preparing(Stay, WeldingDetectionReq, REQUEST_TIMEOUT)
  }

  /** `process_message` of the current state, at the given time. */
  function Process(s: Evcc, m: Message<Response>, now: real): Evcc {
    if !Accepts(s, m) then s.Stopping()
    else match m.body
      case SessionSetupRes(_) => ProcessSessionSetup(s, m)
      case ServiceDiscoveryRes(_, _, _) => ProcessServiceDiscovery(s, m)
      case ServicePaymentSelectionRes(_) =>
        s.Preparing(Goto(ContractAuthentication), ContractAuthenticationReq, REQUEST_TIMEOUT)
      case ContractAuthenticationRes(_, _) => ProcessContractAuthentication(s, m, now)
      case ChargeParameterDiscoveryRes(_, _, _) => ProcessChargeParameterDiscovery(s, m, now)
      case CableCheckRes(_, _, _, _) => ProcessCableCheck(s, m, now)
      case PreChargeRes(_, _) => ProcessPreCharge(s, m, now)
      case PowerDeliveryRes(_) => ProcessPowerDelivery(s)
      case CurrentDemandRes(_, _) => ProcessCurrentDemand(s, m)
      case WeldingDetectionRes(_) => ProcessWeldingDetection(s, now)
      case SessionStopRes(_) => s.Finishing()
      case _ => s.Stopping()
  }

  /** Whatever the state left pending is sent, also on the way to Terminate; then the machine moves on. */
  function Advance(s: Evcc): Evcc {
    if s.status != Running then s
    else if s.pending.None? && s.next != Terminate then s.(status := Crashed)
    else
      var told := if s.pending.Some? then s.(lastSent := s.pending) else s;
      match s.next
      case Stay => told
      case Goto(phase) => told.Entering(phase)
      case Terminate => told.(status := Terminated)
  }

  /** One turn of `rcv_loop` on a live session; a session that has ended reads nothing. */
  function Receive(s: Evcc, m: Message<Response>, now: real): Evcc {
    if s.status != Running then s else Advance(Process(s, m, now))
  }

  /** The request that turn writes to the connection, if any. */
  function Sends(s: Evcc, m: Message<Response>, now: real): Option<Message<Request>> {
    if s.status != Running || Process(s, m, now).status != Running then None
    else Process(s, m, now).pending
  }

  /** The session right after the SessionSetupReq of a new session has been sent. */
  function Initial(mode: EnergyMode, ctrl: Controller): Evcc {
    Evcc(SessionSetup, Stay, None, "00", -1.0, mode, 0, ctrl, Running, Some(Message("00", SessionSetupReq)),
         REQUEST_TIMEOUT, None)
  }

  datatype Input = Input(message: Message<Response>, now: real)

  /** The session after a whole sequence of responses. */
  function Run(s: Evcc, inputs: seq<Input>): Evcc
    decreases |inputs|
  {
    if inputs == [] then s
    else
      var last := inputs[|inputs| - 1];
      Receive(Run(s, inputs[..|inputs| - 1]), last.message, last.now)
  }

  /** A running EVCC session and the EV controller it asks. */
  class EvccSession {
    const mode: EnergyMode
    const ev: SimController
    var phase: Phase
    var next: Next
    var pending: Option<Message<Request>>
    var sessionId: string
    var ongoingTimer: real
    var services: nat
    var status: Status
    var lastSent: Option<Message<Request>>
    var timeout: real
    var stopReason: Option<bool>

    ghost function Model(): Evcc
      reads this, ev
    {
      Evcc(phase, next, pending, sessionId, ongoingTimer, mode, services, ev.Model(), status, lastSent,
           timeout, stopReason)
    }

    constructor (mode: EnergyMode, ev: SimController)
      ensures Model() == Initial(mode, ev.Model()) && this.ev == ev
    {
      this.mode, this.ev := mode, ev;
      phase, next, pending, sessionId, ongoingTimer := SessionSetup, Stay, None, "00", -1.0;
      services, status, lastSent := 0, Running, Some(Message("00", SessionSetupReq));
      timeout, stopReason := REQUEST_TIMEOUT, None;
    }

    method Enter(p: Phase)
      modifies this
      ensures Model() == old(Model()).Entering(p)
    {
      phase, next, pending := p, Stay, None;
    }

    method CreateNextMessage(n: Next, body: Request, t: real)
      modifies `next, `pending, `timeout
      ensures Model() == old(Model()).Preparing(n, body, t)
    {
      next, timeout := n, t;
      pending := Some(Message(sessionId, body));
    }

    method StopStateMachine()
      modifies `next, `stopReason
      ensures Model() == old(Model()).Stopping()
    {
      stopReason := Some(false);
      next := Terminate;
    }

    method CheckMsg(m: Message<Response>) returns (accepted: bool)
      modifies `next, `stopReason
      ensures accepted == Accepts(old(Model()), m)
      ensures Model() == if accepted then old(Model()) else old(Model()).Stopping()
    {
      if m.body.Kind() != Some(phase) {
        StopStateMachine();
        return false;
      }
      if m.body.code.Negative() {
        StopStateMachine();
        return false;
      }
      if !m.body.SessionSetupRes? && m.sessionId != sessionId {
        StopStateMachine();
        return false;
      }
      return true;
    }

    method CreateParameterRequest(n: Next, t: real)
      modifies this
      ensures Model() == AskingForParameters(old(Model()), n, t)
    {
      if mode == DcCore || mode == DcExtended {
        CreateNextMessage(n, ChargeParameterDiscoveryReq(mode), t);
      } else {
        status := Crashed;
      }
    }

    method DoServiceDiscovery(m: Message<Response>)
      requires m.body.ServiceDiscoveryRes?
      modifies this
      ensures Model() == ProcessServiceDiscovery(old(Model()), m)
    {
      services := services + 1;
      if !m.body.eimOffered {
        StopStateMachine();
        return;
      }
      if m.body.offeredMode != mode {
        StopStateMachine();
        return;
      }
      CreateNextMessage(Goto(ServicePaymentSelection), ServicePaymentSelectionReq(true, services), REQUEST_TIMEOUT);
    }

    method DoContractAuthentication(m: Message<Response>, now: real)
      requires m.body.ContractAuthenticationRes?
      modifies this
      ensures Model() == ProcessContractAuthentication(old(Model()), m, now)
    {
      if ongoingTimer > 0.0 {
        if now - ongoingTimer > SEQUENCE_TIMEOUT {
          StopStateMachine();
          return;
        }
      } else if ongoingTimer == -1.0 {
        ongoingTimer := now;
      }
      if m.body.finished {
        CreateParameterRequest(Goto(ChargeParameterDiscovery), REQUEST_TIMEOUT);
      } else {
        CreateNextMessage(Stay, ContractAuthenticationReq, REQUEST_TIMEOUT);
      }
    }

    method DoChargeParameterDiscovery(m: Message<Response>, now: real)
      requires m.body.ChargeParameterDiscoveryRes?
      modifies this
      ensures Model() == ProcessChargeParameterDiscovery(old(Model()), m, now)
    {
      if m.body.finished {
        ongoingTimer := -1.0;
        if m.body.schedules == 0 {
          status := Crashed;
          return;
        }
        CreateNextMessage(Goto(CableCheck), CableCheckReq(true), REQUEST_TIMEOUT);
      } else {
        if ongoingTimer > 0.0 {
          if now - ongoingTimer > SEQUENCE_TIMEOUT {
            StopStateMachine();
            return;
          }
        } else if ongoingTimer == -1.0 {
          ongoingTimer := now;
        }
        CreateParameterRequest(Stay, SEQUENCE_TIMEOUT);
      }
    }

    method DoCableCheck(m: Message<Response>, now: real)
      requires m.body.CableCheckRes?
      modifies this
      ensures Model() == ProcessCableCheck(old(Model()), m, now)
    {
      if m.body.finished {
        ongoingTimer := -1.0;
        if m.body.evseReady && m.body.isolation == Valid {
          CreateNextMessage(Goto(PreCharge), PreChargeReq(true, TARGET_VOLTAGE, TARGET_CURRENT), REQUEST_TIMEOUT);
        } else {
          StopStateMachine();
        }
      } else {
        if ongoingTimer >= 0.0 {
          if now - ongoingTimer > CABLE_CHECK_TIMEOUT {
            StopStateMachine();
            return;
          }
        } else if ongoingTimer == -1.0 {
          ongoingTimer := now;
        }
        CreateNextMessage(Stay, CableCheckReq(true), REQUEST_TIMEOUT);
      }
    }

    method DoPreCharge(m: Message<Response>, now: real)
      requires m.body.PreChargeRes?
      modifies this, ev
      ensures Model() == ProcessPreCharge(old(Model()), m, now)
    {
      var done := ev.IsPrecharged(m.body.presentVoltage);
      if done {
        ongoingTimer := -1.0;
        ev.GetPowerDeliveryParameter();
        CreateNextMessage(Goto(PowerDelivery), PowerDeliveryReq(true, true), REQUEST_TIMEOUT);
      } else {
        if ongoingTimer >= 0.0 {
          if now - ongoingTimer > PRE_CHARGE_TIMEOUT {
            StopStateMachine();
            return;
          }
        } else {
          ongoingTimer := now;
        }
        CreateNextMessage(Stay, PreChargeReq(true, TARGET_VOLTAGE, TARGET_CURRENT), REQUEST_TIMEOUT);
      }
    }

    method DoPowerDelivery()
      modifies this, ev
      ensures Model() == ProcessPowerDelivery(old(Model()))
    {
      var more := ev.ContinueCharging();
      if more {
        var demand := CurrentDemandReq(TARGET_VOLTAGE, TARGET_CURRENT);
        CreateNextMessage(Goto(CurrentDemand), demand, CURRENT_DEMAND_TIMEOUT);
      } else {
        CreateNextMessage(Goto(WeldingDetection), WeldingDetectionReq, REQUEST_TIMEOUT);
      }
    }

    method DoStopCharging()
      modifies this, ev
      ensures Model() == StopCharging(old(Model()))
    {
      ev.StopCharging();
      ev.GetPowerDeliveryParameter();
      CreateNextMessage(Goto(PowerDelivery), PowerDeliveryReq(false, true), REQUEST_TIMEOUT);
    }

    method DoCurrentDemand(m: Message<Response>)
      requires m.body.CurrentDemandRes?
      modifies this, ev
      ensures Model() == ProcessCurrentDemand(old(Model()), m)
    {
      if !m.body.evseReady {
        DoStopCharging();
        return;
      }
      var more := ev.ContinueCharging();
      if more {
        CreateNextMessage(Stay, CurrentDemandReq(TARGET_VOLTAGE, TARGET_CURRENT), CURRENT_DEMAND_TIMEOUT);
      } else {
        DoStopCharging();
      }
    }

    method DoWeldingDetection(now: real)
      modifies this, ev
      ensures Model() == ProcessWeldingDetection(old(Model()), now)
    {
      if ongoingTimer > 0.0 {
        if now - ongoingTimer > SEQUENCE_TIMEOUT {
          StopStateMachine();
          return;
        }
      } else if ongoingTimer == -1.0 {
        ongoingTimer := now;
      }
      var done := ev.WeldingDetectionHasFinished();
      if done {
        CreateNextMessage(Goto(SessionStop), SessionStopReq, REQUEST_TIMEOUT);
      } else {
        CreateNextMessage(Stay, WeldingDetectionReq, REQUEST_TIMEOUT);
      }
    }

    method ProcessMessage(m: Message<Response>, now: real)
      modifies this, ev
      ensures Model() == Process(old(Model()), m, now)
    {
      var accepted := CheckMsg(m);
      if !accepted {
        return;
      }
      match m.body {
        case SessionSetupRes(_) =>
          sessionId := m.sessionId;
          CreateNextMessage(Goto(ServiceDiscovery), ServiceDiscoveryReq, REQUEST_TIMEOUT);
        case ServiceDiscoveryRes(_, _, _) => DoServiceDiscovery(m);
        case ServicePaymentSelectionRes(_) =>
          CreateNextMessage(Goto(ContractAuthentication), ContractAuthenticationReq, REQUEST_TIMEOUT);
        case ContractAuthenticationRes(_, _) => DoContractAuthentication(m, now);
        case ChargeParameterDiscoveryRes(_, _, _) => DoChargeParameterDiscovery(m, now);
        case CableCheckRes(_, _, _, _) => DoCableCheck(m, now);
        case PreChargeRes(_, _) => DoPreCharge(m, now);
        case PowerDeliveryRes(_) => DoPowerDelivery();
        case CurrentDemandRes(_, _) => DoCurrentDemand(m);
        case WeldingDetectionRes(_) => DoWeldingDetection(now);
        case SessionStopRes(_) =>
          stopReason := Some(true);
          next := Terminate;
      }
    }

    /** The read of the receive loop timed out, or the peer closed the connection. */
    method EndRead()
      modifies this
      ensures Model() == old(Model()).Losing()
    {
      if status == Running {
        status, stopReason := Lost, Some(false);
      }
    }

    /** One turn of the receive loop: process, send what is pending, move on. */
    method Turn(m: Message<Response>, now: real) returns (sent: Option<Message<Request>>)
      modifies this, ev
      ensures Model() == Receive(old(Model()), m, now)
      ensures sent == Sends(old(Model()), m, now)
    {
      if status != Running {
        return None;
      }
      ProcessMessage(m, now);
      if status != Running {
        return None;
      }
      sent := pending;
      if pending == None && next != Terminate {
        status := Crashed;
        return;
      }
      if pending != None {
        lastSent := pending;
      }
      if next == Terminate {
        status := Terminated;
      } else if next.Goto? {
        Enter(next.phase);
      }
    }
  }
}
