/**
 A DIN SPEC 70121 session as a whole: one vehicle, one charging station and the
 message in flight between them. The joint invariant relates the two state
 machines; it shows that they never lose step, and exactly for which vehicles.
 */
module DinSession {
  import opened Common
  import opened DinMessages
  import opened EvController
  import S = DinSecc
  import E = DinEvcc
  import Bounds = DinEvccBounds

  datatype Wire = ToSecc(request: Message<Request>) | ToEvcc(response: Message<Response>) | Quiet

  datatype Joint = Joint(ev: E.Evcc, se: S.Secc, wire: Wire)

  /**
   What the outside world contributes to one turn: the EVSE controller's answers, the
   time, and how long the party whose turn it is has waited for the message in flight.
   */
  datatype Choice = Choice(env: S.Environment, now: real, waited: real)

  /** The message in flight comes after the read of the party it is addressed to has timed out. */
  predicate TooLate(j: Joint, c: Choice) {
    match j.wire
    case ToSecc(_) => c.waited > S.SEQUENCE_TIMEOUT
    case ToEvcc(_) => c.waited > j.ev.timeout
    case Quiet => false
  }

  /**
   The party addressed by the message in flight takes one turn of its receive loop. If its
   read has timed out it closes the connection, and then the read of the other ends as well.
   */
  function Step(j: Joint, c: Choice): Joint {
    if TooLate(j, c) then Joint(j.ev.Losing(), j.se.Losing(), Quiet) else Taken(j, c)
  }

  function Taken(j: Joint, c: Choice): Joint {
    match j.wire
    case ToSecc(m) =>
      var a := S.Answer(j.se, m, c.env);
      j.(se := S.Receive(j.se, m, c.env), wire := if a.Some? then ToEvcc(a.value) else Quiet)
    case ToEvcc(m) =>
      var q := E.Sends(j.ev, m, c.now);
      j.(ev := E.Receive(j.ev, m, c.now), wire := if q.Some? then ToSecc(q.value) else Quiet)
    case Quiet => j
  }

  function Run(j: Joint, choices: seq<Choice>): Joint
    decreases |choices|
  {
    if choices == [] then j else Step(Run(j, choices[..|choices| - 1]), choices[|choices| - 1])
  }

  /** A vehicle that has just sent its SessionSetupReq to a station waiting for it. */
  function Begin(mode: EnergyMode, ctrl: Controller, sessionId: string, modes: seq<EnergyMode>, hlc: bool): Joint {
    Joint(E.Initial(mode, ctrl), S.Initial(sessionId, modes, hlc), ToSecc(Message("00", SessionSetupReq)))
  }

  /** The vehicle's controller can be asked to continue twice: once for its parameter, once to start charging. */
  predicate CanCharge(ctrl: Controller) {
    ctrl.Continues() && ctrl.AfterContinue().Continues()
  }

  /** The station is in a state in which it accepts what the vehicle has just asked. */
  ghost predicate Awaits(se: S.State, ev: E.Evcc, q: Request) {
    match ev.phase
    case PreCharge => se.phase == PreCharge
    case PowerDelivery =>
      && q.PowerDeliveryReq?
      && !se.expectFirst
      && (if q.ready then se.phase == PreCharge && ev.ctrl.Continues()
          else se.phase == CurrentDemand && ev.ctrl.completed)
    case WeldingDetection => (se.phase == PowerDelivery || se.phase == WeldingDetection) && !se.expectFirst
    case SessionStop => se.phase == WeldingDetection && !se.expectFirst
    case _ => se.phase == ev.phase
  }

  /** The contents of a request that the station checks beyond its kind. */
  ghost predicate WellMade(q: Request, modes: seq<EnergyMode>) {
    match q
    case ServicePaymentSelectionReq(eim, services) => eim && services > 0
    case ChargeParameterDiscoveryReq(mode) => mode in modes
    case CableCheckReq(evOk) => evOk
    case PreChargeReq(evOk, _, current) => evOk && current <= 2.0
    case PowerDeliveryReq(_, hasParameter) => hasParameter
    case _ => true
  }

  ghost predicate InStep(ev: E.Evcc, se: S.Secc) {
    && Bounds.Settled(ev)
    && se.modes != []
    && (ev.phase != SessionSetup ==> ev.sessionId == se.sessionId)
    && (Bounds.Rank(ev.phase) >= 2 ==> ev.mode in se.modes)
    && (Bounds.Rank(ev.phase) < 7 ==> CanCharge(ev.ctrl))
    && (ev.phase == CurrentDemand ==> !ev.ctrl.completed)
  }

  ghost predicate RequestFits(ev: E.Evcc, se: S.Secc, m: Message<Request>) {
    && InStep(ev, se)
    && se.status == S.Running
    && ev.lastSent == Some(m)
    && m.body.Kind() == Some(ev.phase)
    && (ev.phase != SessionSetup ==> m.sessionId == se.sessionId)
    && WellMade(m.body, se.modes)
    && Awaits(se.state, ev, m.body)
  }

  /** Where the station stands once it has given a positive answer. */
  ghost predicate Answered(se: S.State, ev: E.Evcc, r: Response) {
    match ev.phase
    case SessionSetup => se.phase == ServiceDiscovery
    case ServiceDiscovery => se.phase == ServicePaymentSelection
    case ServicePaymentSelection => se.phase == ContractAuthentication
    case ContractAuthentication =>
      && r.ContractAuthenticationRes?
      && se.phase == (if r.finished then ChargeParameterDiscovery else ContractAuthentication)
    case ChargeParameterDiscovery =>
      && r.ChargeParameterDiscoveryRes?
      && (r.finished ==> r.schedules > 0)
      && se.phase == (if r.finished then CableCheck else ChargeParameterDiscovery)
    case CableCheck => r.CableCheckRes? && se.phase == (if r.finished then PreCharge else CableCheck)
    case PreCharge => se.phase == PreCharge && !se.expectFirst
    case PowerDelivery =>
      && ev.lastSent.Some? && ev.lastSent.value.body.PowerDeliveryReq?
      && (if ev.lastSent.value.body.ready then se.phase == CurrentDemand && ev.ctrl.Continues()
          else se.phase == PowerDelivery && !se.expectFirst && ev.ctrl.completed)
    case CurrentDemand => se.phase == CurrentDemand && !se.expectFirst
    case WeldingDetection => se.phase == WeldingDetection && !se.expectFirst
    case SessionStop => true
  }

  /** The only negative answer a vehicle in step can get is the plain FAILED of an EVSE fault. */
  ghost predicate ResponseFits(ev: E.Evcc, se: S.Secc, m: Message<Response>) {
    && InStep(ev, se)
    && m.body.Kind() == Some(ev.phase)
    && m.sessionId == se.sessionId
    && (m.body.ServiceDiscoveryRes? && !m.body.code.Negative() ==> m.body.offeredMode in se.modes)
    && (if m.body.code.Negative() then m.body.code == Failed && se.status == S.Stopped
        else Answered(se.state, ev, m.body) && (se.status == S.Running || ev.phase == SessionStop))
  }

  /** While the vehicle is live, whatever is in flight fits both machines. */
  ghost predicate Inv(j: Joint) {
    j.ev.status == E.Running ==>
      match j.wire
      case ToSecc(m) => RequestFits(j.ev, j.se, m)
      case ToEvcc(m) => ResponseFits(j.ev, j.se, m)
      case Quiet => false
  }

  // ---------------------------------------------------------------------
  // The station's turn
  // ---------------------------------------------------------------------

  lemma FittingRequestIsAccepted(ev: E.Evcc, se: S.Secc, m: Message<Request>)
    requires RequestFits(ev, se, m)
    ensures S.Check(se.state, se.sessionId, m) == S.Accept
  {}

  ghost predicate StationAnswers(ev: E.Evcc, se: S.Secc, m: Message<Request>, e: S.Environment) {
    && S.Answer(se, m, e).Some?
    && ResponseFits(ev, S.Receive(se, m, e), S.Answer(se, m, e).value)
  }

  lemma OnSetup(ev: E.Evcc, se: S.Secc, m: Message<Request>, e: S.Environment)
    requires RequestFits(ev, se, m) && Bounds.Rank(ev.phase) <= 2
    ensures StationAnswers(ev, se, m, e)
  {
    match ev.phase {
      case SessionSetup =>
      case ServiceDiscovery =>
      case ServicePaymentSelection =>
    }
  }

  lemma OnAuthentication(ev: E.Evcc, se: S.Secc, m: Message<Request>, e: S.Environment)
    requires RequestFits(ev, se, m) && (ev.phase == ContractAuthentication || ev.phase == ChargeParameterDiscovery)
    ensures StationAnswers(ev, se, m, e)
  {}

  ghost predicate ReplyFits(ev: E.Evcc, p: S.Secc) {
    && p.status == S.Running
    && p.state.reply.Some?
    && ResponseFits(ev, S.Advance(p), p.state.reply.value)
  }

  lemma StoppingFits(ev: E.Evcc, t: S.Secc, q: Request)
    requires InStep(ev, t) && t.status == S.Running && q.Kind() == Some(ev.phase)
    ensures ReplyFits(ev, t.Stopping(q, Failed))
  {}

  lemma CableCheckReplyFits(ev: E.Evcc, t: S.Secc, finished: bool, ready: bool, level: IsolationLevel)
    requires InStep(ev, t) && t.status == S.Running && ev.phase == t.state.phase == CableCheck
    ensures var next := if finished then Goto(PreCharge) else Stay;
            ReplyFits(ev, t.Replying(next, CableCheckRes(Ok, finished, ready, level)))
  {}

  lemma IsolationReadFits(ev: E.Evcc, t: S.Secc, m: Message<Request>, e: S.Environment)
    requires InStep(ev, t) && t.status == S.Running && ev.phase == t.state.phase == CableCheck && m.body.CableCheckReq?
    ensures ReplyFits(ev, S.ReadIsolation(t, m, e))
  {
    var read := t.Logged(S.IsolationRead(e.isolation));
    if e.isolation == Some(Fault) || e.isolation == Some(Invalid) {
      StoppingFits(ev, read, m.body);
    } else {
      var finished := e.isolation == Some(Valid) || e.isolation == Some(Warning);
      CableCheckReplyFits(ev, read, finished, e.evseReady, e.evseIsolation);
    }
  }

  lemma ContactorReadFits(ev: E.Evcc, t: S.Secc, m: Message<Request>, e: S.Environment)
    requires InStep(ev, t) && t.status == S.Running && ev.phase == t.state.phase == CableCheck && m.body.CableCheckReq?
    ensures ReplyFits(ev, S.ReadContactors(t, m, e))
  {
    var read := t.Logged(S.ContactorCloseRead(e.contactorClosed));
    if e.contactorClosed == Some(false) {
      StoppingFits(ev, read, m.body);
    } else {
      var known := read.state.(contactorsClosed := e.contactorClosed.Some? || read.state.contactorsClosed);
      CableCheckReplyFits(ev, read.(state := known), false, e.evseReady, e.evseIsolation);
    }
  }

  lemma OnCableCheck(ev: E.Evcc, se: S.Secc, m: Message<Request>, e: S.Environment)
    requires RequestFits(ev, se, m) && ev.phase == CableCheck
    ensures StationAnswers(ev, se, m, e)
  {
    FittingRequestIsAccepted(ev, se, m);
    var t := se.Logged(S.Received(m.body));
    assert S.Check(t.state, t.sessionId, m) == S.Accept;
    var begun := if t.state.cableCheckStarted then t
                 else t.Logged(S.CableCheckStarted).(state := t.state.(cableCheckStarted := true));
    if begun.state.contactorsClosed {
      IsolationReadFits(ev, begun, m, e);
    } else {
      ContactorReadFits(ev, begun, m, e);
    }
  }

  lemma RampUpFits(ev: E.Evcc, t: S.Secc, m: Message<Request>, e: S.Environment)
    requires InStep(ev, t) && t.status == S.Running && ev.phase == t.state.phase == PreCharge && m.body.PreChargeReq?
    ensures ReplyFits(ev, S.RampUp(t, m, e))
  {
    var read := t.Logged(S.PresentCurrentRead(e.presentCurrent));
    StoppingFits(ev, read, m.body);
    StoppingFits(
      ev,
      read.Logged(S.ChargingCommand(m.body.targetVoltage, m.body.targetCurrent, true, !e.commandTimesOut)),
      m.body);
  }

  lemma OnPreCharge(ev: E.Evcc, se: S.Secc, m: Message<Request>, e: S.Environment)
    requires RequestFits(ev, se, m) && ev.phase == PreCharge
    ensures StationAnswers(ev, se, m, e)
  {
    FittingRequestIsAccepted(ev, se, m);
    var t := se.Logged(S.Received(m.body));
    assert S.Check(t.state, t.sessionId, m) == S.Accept;
    RampUpFits(ev, t, m, e);
  }

  lemma OnPowerDelivery(ev: E.Evcc, se: S.Secc, m: Message<Request>, e: S.Environment)
    requires RequestFits(ev, se, m) && ev.phase == PowerDelivery
    ensures StationAnswers(ev, se, m, e)
  {
    FittingRequestIsAccepted(ev, se, m);
    var t := se.Logged(S.Received(m.body)).Entering(PowerDelivery);
    assert S.Check(t.state, t.sessionId, m) == S.Accept;
  }

  lemma OnCurrentDemand(ev: E.Evcc, se: S.Secc, m: Message<Request>, e: S.Environment)
    requires RequestFits(ev, se, m) && ev.phase == CurrentDemand
    ensures StationAnswers(ev, se, m, e)
  {
    FittingRequestIsAccepted(ev, se, m);
    var t := se.Logged(S.Received(m.body));
    assert S.Check(t.state, t.sessionId, m) == S.Accept;
    StoppingFits(
      ev,
      t.Logged(S.ChargingCommand(m.body.targetVoltage, m.body.targetCurrent, false, !e.commandTimesOut)),
      m.body);
  }

  lemma OnWeldingDetection(ev: E.Evcc, se: S.Secc, m: Message<Request>, e: S.Environment)
    requires RequestFits(ev, se, m) && ev.phase == WeldingDetection
    ensures StationAnswers(ev, se, m, e)
  {
    FittingRequestIsAccepted(ev, se, m);
    var t := se.Logged(S.Received(m.body));
    assert S.Check(t.state, t.sessionId, m) == S.Accept;
    assert S.Check(t.Entering(WeldingDetection).state, t.sessionId, m) == S.Accept;
  }

  lemma OnSessionStop(ev: E.Evcc, se: S.Secc, m: Message<Request>, e: S.Environment)
    requires RequestFits(ev, se, m) && ev.phase == SessionStop
    ensures StationAnswers(ev, se, m, e)
  {
    FittingRequestIsAccepted(ev, se, m);
    var t := se.Logged(S.Received(m.body));
    assert S.Check(t.state, t.sessionId, m) == S.Accept;
    assert S.Check(t.Entering(SessionStop).state, t.sessionId, m) == S.Accept;
  }

  lemma StationKeepsInv(ev: E.Evcc, se: S.Secc, m: Message<Request>, e: S.Environment)
    requires RequestFits(ev, se, m)
    ensures StationAnswers(ev, se, m, e)
  {
    match ev.phase {
      case ContractAuthentication => OnAuthentication(ev, se, m, e);
      case ChargeParameterDiscovery => OnAuthentication(ev, se, m, e);
      case CableCheck => OnCableCheck(ev, se, m, e);
      case PreCharge => OnPreCharge(ev, se, m, e);
      case PowerDelivery => OnPowerDelivery(ev, se, m, e);
      case CurrentDemand => OnCurrentDemand(ev, se, m, e);
      case WeldingDetection => OnWeldingDetection(ev, se, m, e);
      case SessionStop => OnSessionStop(ev, se, m, e);
      case _ => OnSetup(ev, se, m, e);
    }
  }

  // ---------------------------------------------------------------------
  // The vehicle's turn
  // ---------------------------------------------------------------------

  ghost predicate VehicleReplies(ev: E.Evcc, se: S.Secc, m: Message<Response>, now: real) {
    E.Receive(ev, m, now).status == E.Running ==>
      && E.Sends(ev, m, now).Some?
      && RequestFits(E.Receive(ev, m, now), se, E.Sends(ev, m, now).value)
  }

  lemma VehicleEarly(ev: E.Evcc, se: S.Secc, m: Message<Response>, now: real)
    requires ResponseFits(ev, se, m) && ev.status == E.Running && E.Accepts(ev, m) && Bounds.Rank(ev.phase) <= 2
    ensures VehicleReplies(ev, se, m, now)
  {}

  lemma VehicleAuthentication(ev: E.Evcc, se: S.Secc, m: Message<Response>, now: real)
    requires ResponseFits(ev, se, m) && ev.status == E.Running && E.Accepts(ev, m) && ev.phase == ContractAuthentication
    ensures VehicleReplies(ev, se, m, now)
  {}

  lemma VehicleParameters(ev: E.Evcc, se: S.Secc, m: Message<Response>, now: real)
    requires ResponseFits(ev, se, m) && ev.status == E.Running && E.Accepts(ev, m)
    requires ev.phase == ChargeParameterDiscovery
    ensures VehicleReplies(ev, se, m, now)
  {}

  lemma VehicleCableCheck(ev: E.Evcc, se: S.Secc, m: Message<Response>, now: real)
    requires ResponseFits(ev, se, m) && ev.status == E.Running && E.Accepts(ev, m) && ev.phase == CableCheck
    ensures VehicleReplies(ev, se, m, now)
  {
    assert E.Process(ev, m, now) == E.ProcessCableCheck(ev, m, now);
  }

  lemma VehiclePreCharge(ev: E.Evcc, se: S.Secc, m: Message<Response>, now: real)
    requires ResponseFits(ev, se, m) && ev.status == E.Running && E.Accepts(ev, m) && ev.phase == PreCharge
    ensures VehicleReplies(ev, se, m, now)
  {
    assert E.Process(ev, m, now) == E.ProcessPreCharge(ev, m, now);
  }

  lemma VehiclePowerDelivery(ev: E.Evcc, se: S.Secc, m: Message<Response>, now: real)
    requires ResponseFits(ev, se, m) && ev.status == E.Running && E.Accepts(ev, m) && ev.phase == PowerDelivery
    ensures VehicleReplies(ev, se, m, now)
  {}

  lemma StopChargingFits(ev: E.Evcc, se: S.Secc)
    requires InStep(ev, se) && ev.status == E.Running && se.status == S.Running && ev.phase == CurrentDemand
    requires se.state.phase == CurrentDemand && !se.state.expectFirst
    ensures var p := E.StopCharging(ev);
            p.status == E.Running && p.pending.Some? && RequestFits(E.Advance(p), se, p.pending.value)
  {}

  lemma VehicleCurrentDemand(ev: E.Evcc, se: S.Secc, m: Message<Response>, now: real)
    requires ResponseFits(ev, se, m) && ev.status == E.Running && E.Accepts(ev, m) && ev.phase == CurrentDemand
    ensures VehicleReplies(ev, se, m, now)
  {
    assert E.Process(ev, m, now) == E.ProcessCurrentDemand(ev, m);
    if !m.body.evseReady {
      StopChargingFits(ev, se);
    } else if !ev.ctrl.Continues() {
      StopChargingFits(ev.(ctrl := ev.ctrl.AfterContinue()), se);
    }
  }

  lemma VehicleWeldingDetection(ev: E.Evcc, se: S.Secc, m: Message<Response>, now: real)
    requires ResponseFits(ev, se, m) && ev.status == E.Running && E.Accepts(ev, m) && ev.phase == WeldingDetection
    ensures VehicleReplies(ev, se, m, now)
  {
    assert E.Process(ev, m, now) == E.ProcessWeldingDetection(ev, now);
  }

  lemma VehicleSessionStop(ev: E.Evcc, se: S.Secc, m: Message<Response>, now: real)
    requires ResponseFits(ev, se, m) && ev.status == E.Running && E.Accepts(ev, m) && ev.phase == SessionStop
    ensures VehicleReplies(ev, se, m, now)
  {
    assert E.Process(ev, m, now) == ev.Finishing();
  }

  lemma VehicleKeepsInv(ev: E.Evcc, se: S.Secc, m: Message<Response>, now: real)
    requires ResponseFits(ev, se, m) && ev.status == E.Running
    ensures VehicleReplies(ev, se, m, now)
  {
    if E.Accepts(ev, m) {
      match ev.phase {
        case ContractAuthentication => VehicleAuthentication(ev, se, m, now);
        case ChargeParameterDiscovery => VehicleParameters(ev, se, m, now);
        case CableCheck => VehicleCableCheck(ev, se, m, now);
        case PreCharge => VehiclePreCharge(ev, se, m, now);
        case PowerDelivery => VehiclePowerDelivery(ev, se, m, now);
        case CurrentDemand => VehicleCurrentDemand(ev, se, m, now);
        case WeldingDetection => VehicleWeldingDetection(ev, se, m, now);
        case SessionStop => VehicleSessionStop(ev, se, m, now);
        case _ => VehicleEarly(ev, se, m, now);
      }
    }
  }

  // ---------------------------------------------------------------------
  // Whole runs
  // ---------------------------------------------------------------------

  lemma StepKeepsInv(j: Joint, c: Choice)
    requires Inv(j)
    ensures Inv(Step(j, c))
  {
    if j.ev.status == E.Running {
      match j.wire {
        case ToSecc(m) => StationKeepsInv(j.ev, j.se, m, c.env);
        case ToEvcc(m) => VehicleKeepsInv(j.ev, j.se, m, c.now);
      }
    }
  }

  lemma {:induction false} RunKeepsInv(j: Joint, choices: seq<Choice>)
    requires Inv(j)
    ensures Inv(Run(j, choices))
  {
    if choices != [] {
      RunKeepsInv(j, choices[..|choices| - 1]);
      StepKeepsInv(Run(j, choices[..|choices| - 1]), choices[|choices| - 1]);
    }
  }

  /** A request of a live vehicle that the station turns down for its kind or its session. */
  ghost predicate OutOfStep(j: Joint) {
    && j.ev.status == E.Running
    && j.wire.ToSecc?
    && S.Check(j.se.state, j.se.sessionId, j.wire.request) != S.Accept
  }

  /** A response to a live vehicle is positive or the plain FAILED of an EVSE fault. */
  ghost predicate OnlyEvseFaults(j: Joint) {
    j.ev.status == E.Running && j.wire.ToEvcc? ==>
      var r := j.wire.response.body;
      r.Kind().Some? && (r.code.Negative() ==> r.code == Failed)
  }

  /**
   In every run of a vehicle that can charge against a station offering some mode,
   under any controller answers and any timing, every request of the live vehicle
   passes the station's kind and session checks, and every negative response it
   gets is the plain FAILED of an EVSE fault.
   */
  lemma {:induction false} NeverOutOfStep(
      mode: EnergyMode, ctrl: Controller, sessionId: string, modes: seq<EnergyMode>, hlc: bool, choices: seq<Choice>)
    requires CanCharge(ctrl) && modes != []
    ensures var j := Run(Begin(mode, ctrl, sessionId, modes, hlc), choices);
            !OutOfStep(j) && OnlyEvseFaults(j)
  {
    var j := Begin(mode, ctrl, sessionId, modes, hlc);
    assert Inv(j);
    RunKeepsInv(j, choices);
    var k := Run(j, choices);
    if k.ev.status == E.Running && k.wire.ToSecc? {
      FittingRequestIsAccepted(k.ev, k.se, k.wire.request);
    }
  }

  /** A freshly configured vehicle can charge exactly when it is configured for at least two cycles. */
  lemma FreshCanCharge(chargeLoopCycle: int)
    ensures CanCharge(Fresh(chargeLoopCycle)) <==> chargeLoopCycle >= 2
  {
    if chargeLoopCycle >= 2 {
      var n := chargeLoopCycle as real;
      var q := 100.0 / n;
      assert q * n == 100.0;
      assert q > 50.0 ==> q * n > 50.0 * n >= 100.0;
      assert q > 0.0 by { Bounds.PositiveQuotient(chargeLoopCycle); }
      assert (10.0 + q).Floor < 100;
    }
  }

  // ---------------------------------------------------------------------
  // How long an answer is waited for
  // ---------------------------------------------------------------------

  /** A repeated ChargeParameterDiscoveryReq may be answered late, a CurrentDemandReq has to be answered quickly. */
  function Patience(ev: E.Evcc): real {
    if ev.phase == CurrentDemand then 0.25
    else if ev.phase == ChargeParameterDiscovery && ev.pending.Some? then 60.0
    else 2.0
  }

  ghost predicate Waits(ev: E.Evcc) {
    ev.status == E.Running ==> ev.timeout == Patience(ev)
  }

  lemma EarlyWaits(ev: E.Evcc, m: Message<Response>, now: real)
    requires ev.status == E.Running && ev.next == Stay && E.Accepts(ev, m) && Bounds.Rank(ev.phase) <= 5
    ensures Waits(E.Advance(E.Process(ev, m, now)))
  {}

  lemma LateWaits(ev: E.Evcc, m: Message<Response>, now: real)
    requires ev.status == E.Running && ev.next == Stay && E.Accepts(ev, m) && Bounds.Rank(ev.phase) > 5
    ensures Waits(E.Advance(E.Process(ev, m, now)))
  {}

  lemma ReceiveWaits(ev: E.Evcc, m: Message<Response>, now: real)
    requires Bounds.Settled(ev)
    ensures ev.status == E.Running ==> Waits(E.Receive(ev, m, now))
  {
    if ev.status == E.Running && E.Accepts(ev, m) {
      if Bounds.Rank(ev.phase) <= 5 {
        EarlyWaits(ev, m, now);
      } else {
        LateWaits(ev, m, now);
      }
    }
  }

  /** In every run a live vehicle waits for an answer as long as its state and its last request allow. */
  lemma {:induction false} RunWaits(j: Joint, choices: seq<Choice>)
    requires Inv(j) && Waits(j.ev)
    ensures Waits(Run(j, choices).ev)
  {
    if choices != [] {
      var before, c := choices[..|choices| - 1], choices[|choices| - 1];
      var k := Run(j, before);
      RunWaits(j, before);
      RunKeepsInv(j, before);
      if k.ev.status == E.Running && k.wire.ToEvcc? {
        ReceiveWaits(k.ev, k.wire.response, c.now);
      }
    }
  }

  // ---------------------------------------------------------------------
  // The request repeated by a vehicle that gives up
  // ---------------------------------------------------------------------

  /** The states that can stay in place and then hold the request they last prepared. */
  predicate CanStay(p: Phase) {
    p in {ContractAuthentication, ChargeParameterDiscovery, CableCheck, PreCharge, CurrentDemand, WeldingDetection}
  }

  /** A request still held by a live vehicle is one of its current state, for its current session. */
  ghost predicate Holds(ev: E.Evcc) {
    ev.status == E.Running && ev.pending.Some? ==>
      && CanStay(ev.phase)
      && ev.pending.value.body.Kind() == Some(ev.phase)
      && ev.pending.value.sessionId == ev.sessionId
  }

  lemma EarlyHolds(ev: E.Evcc, m: Message<Response>, now: real)
    requires ev.status == E.Running && ev.next == Stay && E.Accepts(ev, m) && Bounds.Rank(ev.phase) <= 5
    ensures Holds(E.Advance(E.Process(ev, m, now)))
  {}

  lemma LateHolds(ev: E.Evcc, m: Message<Response>, now: real)
    requires ev.status == E.Running && ev.next == Stay && E.Accepts(ev, m) && Bounds.Rank(ev.phase) > 5
    ensures Holds(E.Advance(E.Process(ev, m, now)))
  {}

  lemma ReceiveHolds(ev: E.Evcc, m: Message<Response>, now: real)
    requires Holds(ev) && Bounds.Settled(ev)
    ensures Holds(E.Receive(ev, m, now))
  {
    if ev.status == E.Running && E.Accepts(ev, m) {
      if Bounds.Rank(ev.phase) <= 5 {
        EarlyHolds(ev, m, now);
      } else {
        LateHolds(ev, m, now);
      }
    }
  }

  lemma {:induction false} RunHolds(j: Joint, choices: seq<Choice>)
    requires Inv(j) && Holds(j.ev)
    ensures Holds(Run(j, choices).ev)
  {
    if choices != [] {
      var before, c := choices[..|choices| - 1], choices[|choices| - 1];
      var k := Run(j, before);
      RunHolds(j, before);
      RunKeepsInv(j, before);
      if k.ev.status == E.Running && k.wire.ToEvcc? {
        ReceiveHolds(k.ev, k.wire.response, c.now);
      }
    }
  }

  /** The station has gone on to the next state with this answer. */
  predicate LeavesBehind(r: Response) {
    (r.ContractAuthenticationRes? || r.CableCheckRes?) && r.finished
  }

  /** The request repeated by a vehicle that gives up on a fitting answer. */
  lemma RepeatPassesExactly(ev: E.Evcc, se: S.Secc, m: Message<Response>, now: real)
    requires ResponseFits(ev, se, m) && ev.status == E.Running && se.status == S.Running
    requires Holds(ev) && ev.pending.Some? && E.Receive(ev, m, now).status == E.Terminated
    ensures E.Sends(ev, m, now) == ev.pending == ev.lastSent
    ensures S.Check(se.state, se.sessionId, ev.pending.value) == S.Accept <==> !LeavesBehind(m.body)
  {
    Bounds.ProcessKeepsOrReplaces(ev, m, now);
    match ev.phase
    case ContractAuthentication =>
    case ChargeParameterDiscovery =>
    case CableCheck =>
    case PreCharge =>
    case CurrentDemand =>
    case WeldingDetection =>
  }

  /**
   In every run, when a vehicle that can charge gives up while the station lives,
   nothing is sent if its state was freshly entered; otherwise its last request is
   repeated, and the station turns that down if and only if the answer given up on
   was a finished ContractAuthenticationRes or a finished CableCheckRes.
   */
  lemma {:induction false} RepeatIsRejectedExactly(
      mode: EnergyMode, ctrl: Controller, sessionId: string, modes: seq<EnergyMode>, hlc: bool,
      choices: seq<Choice>, c: Choice)
    requires CanCharge(ctrl) && modes != []
    requires var j := Run(Begin(mode, ctrl, sessionId, modes, hlc), choices);
             && j.ev.status == E.Running && j.wire.ToEvcc? && j.se.status == S.Running
             && Step(j, c).ev.status == E.Terminated
    ensures var j := Run(Begin(mode, ctrl, sessionId, modes, hlc), choices);
            var next := Step(j, c);
            if j.ev.pending.None? then next.wire == Quiet
            else && j.ev.lastSent.Some? && next.wire == ToSecc(j.ev.lastSent.value)
                 && (S.Check(next.se.state, next.se.sessionId, next.wire.request) != S.Accept <==>
                     LeavesBehind(j.wire.response.body))
  {
    var start := Begin(mode, ctrl, sessionId, modes, hlc);
    assert Inv(start);
    RunKeepsInv(start, choices);
    RunHolds(start, choices);
    var j := Run(start, choices);
    if j.ev.pending.Some? {
      RepeatPassesExactly(j.ev, j.se, j.wire.response, c.now);
    } else {
      Bounds.ProcessKeepsOrReplaces(j.ev, j.wire.response, c.now);
    }
  }
}
