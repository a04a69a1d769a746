/**
 How DIN SPEC 70121 sessions end: which vehicles lose step with their station,
 and that a fault-free session runs to its regular end in bounded time.
 */
module DinSessionEnds {
  import opened Common
  import opened DinMessages
  import opened EvController
  import opened DinSession
  import S = DinSecc
  import E = DinEvcc
  import Bounds = DinEvccBounds

  predicate IsDc(mode: EnergyMode) {
    mode == DcCore || mode == DcExtended
  }

  // ---------------------------------------------------------------------
  // A run in which all goes well, turn by turn
  // ---------------------------------------------------------------------

  /** A controller that answers everything at once, and a vehicle that sees no time pass. */
  const SMOOTH: Choice :=
    Choice(
      S.Environment("01", true, 1, Some(true), Some(Valid), Some(0.0), false, true, true, Valid, PRESENT_VOLTAGE),
      1.0,
      0.0)

  /** A property of sessions that every turn keeps, such as that a run leads to them. */
  ghost predicate Closed(reach: Joint -> bool) {
    forall j, c :: reach(j) ==> reach(Step(j, c))
  }

  /** Both parties live in the given states of a session for `mode`, with `wire` in flight and the timer at `t`. */
  ghost predicate Stand(
      j: Joint, wire: Wire, ctrl: Controller, vehicle: Phase, station: Phase, mode: EnergyMode, t: real)
  {
    && j.wire == wire
    && j.ev.status == E.Running && j.ev.next == Stay && j.ev.phase == vehicle
    && (vehicle != SessionSetup ==> j.ev.sessionId == "01")
    && (station != SessionSetup ==> j.se.sessionId == "01")
    && j.ev.ctrl == ctrl && j.ev.ongoingTimer == t && j.ev.timeout == Patience(j.ev)
    && j.se.modes != [] && j.ev.mode == j.se.modes[0] == mode && IsDc(mode)
    && j.se.status == S.Running && j.se.state.phase == station
  }

  ghost predicate Met(
      reach: Joint -> bool, j: Joint, wire: Wire, ctrl: Controller, vehicle: Phase, station: Phase, mode: EnergyMode,
      t: real)
  {
    Closed(reach) && reach(j) && Stand(j, wire, ctrl, vehicle, station, mode, t)
  }

  function Req(q: Request): Wire {
    ToSecc(Message("01", q))
  }

  function Res(r: Response): Wire {
    ToEvcc(Message("01", r))
  }

  const PRECHARGE: Wire := Req(PreChargeReq(true, TARGET_VOLTAGE, TARGET_CURRENT))

  lemma SetupAnswered(reach: Joint -> bool, j: Joint, ctrl: Controller, mode: EnergyMode) returns (k: Joint)
    requires Met(reach, j, ToSecc(Message("00", SessionSetupReq)), ctrl, SessionSetup, SessionSetup, mode, -1.0)
    ensures Met(reach, k, Res(SessionSetupRes(OkNewSessionEstablished)), ctrl,
                SessionSetup, ServiceDiscovery, mode, -1.0)
  {
    k := Step(j, SMOOTH);
    assert S.Check(j.se.state, j.se.sessionId, j.wire.request) == S.Accept;
  }

  lemma DiscoveryAsked(reach: Joint -> bool, j: Joint, ctrl: Controller, mode: EnergyMode) returns (k: Joint)
    requires Met(reach, j, Res(SessionSetupRes(OkNewSessionEstablished)), ctrl,
                 SessionSetup, ServiceDiscovery, mode, -1.0)
    ensures Met(reach, k, Req(ServiceDiscoveryReq), ctrl, ServiceDiscovery, ServiceDiscovery, mode, -1.0)
  {
    k := Step(j, SMOOTH);
  }

  lemma DiscoveryAnswered(reach: Joint -> bool, j: Joint, ctrl: Controller, mode: EnergyMode) returns (k: Joint)
    requires Met(reach, j, Req(ServiceDiscoveryReq), ctrl, ServiceDiscovery, ServiceDiscovery, mode, -1.0)
    ensures Met(reach, k, Res(ServiceDiscoveryRes(Ok, true, mode)), ctrl,
                ServiceDiscovery, ServicePaymentSelection, mode, -1.0)
  {
    k := Step(j, SMOOTH);
    assert S.Check(j.se.state, "01", j.wire.request) == S.Accept;
  }

  lemma PaymentAsked(reach: Joint -> bool, j: Joint, ctrl: Controller, mode: EnergyMode)
    returns (k: Joint, n: nat)
    requires Met(reach, j, Res(ServiceDiscoveryRes(Ok, true, mode)), ctrl,
                 ServiceDiscovery, ServicePaymentSelection, mode, -1.0)
    ensures n > 0
    ensures Met(reach, k, Req(ServicePaymentSelectionReq(true, n)), ctrl,
                ServicePaymentSelection, ServicePaymentSelection, mode, -1.0)
  {
    n := j.ev.services + 1;
    k := Step(j, SMOOTH);
  }

  lemma PaymentAnswered(reach: Joint -> bool, j: Joint, ctrl: Controller, mode: EnergyMode, n: nat)
    returns (k: Joint)
    requires n > 0
    requires Met(reach, j, Req(ServicePaymentSelectionReq(true, n)), ctrl,
                 ServicePaymentSelection, ServicePaymentSelection, mode, -1.0)
    ensures Met(reach, k, Res(ServicePaymentSelectionRes(Ok)), ctrl,
                ServicePaymentSelection, ContractAuthentication, mode, -1.0)
  {
    k := Step(j, SMOOTH);
    assert S.Check(j.se.state, "01", j.wire.request) == S.Accept;
  }

  lemma AuthenticationAsked(reach: Joint -> bool, j: Joint, ctrl: Controller, mode: EnergyMode) returns (k: Joint)
    requires Met(reach, j, Res(ServicePaymentSelectionRes(Ok)), ctrl,
                 ServicePaymentSelection, ContractAuthentication, mode, -1.0)
    ensures Met(reach, k, Req(ContractAuthenticationReq), ctrl,
                ContractAuthentication, ContractAuthentication, mode, -1.0)
  {
    k := Step(j, SMOOTH);
  }

  lemma AuthenticationAnswered(reach: Joint -> bool, j: Joint, ctrl: Controller, mode: EnergyMode, t: real)
    returns (k: Joint)
    requires Met(reach, j, Req(ContractAuthenticationReq), ctrl,
                 ContractAuthentication, ContractAuthentication, mode, t)
    ensures Met(reach, k, Res(ContractAuthenticationRes(Ok, true)), ctrl,
                ContractAuthentication, ChargeParameterDiscovery, mode, t)
    ensures k.ev == j.ev
  {
    k := Step(j, SMOOTH);
    assert S.Check(j.se.state, "01", j.wire.request) == S.Accept;
  }

  lemma ParametersAsked(reach: Joint -> bool, j: Joint, ctrl: Controller, mode: EnergyMode) returns (k: Joint)
    requires Met(reach, j, Res(ContractAuthenticationRes(Ok, true)), ctrl,
                 ContractAuthentication, ChargeParameterDiscovery, mode, -1.0)
    ensures Met(reach, k, Req(ChargeParameterDiscoveryReq(mode)), ctrl,
                ChargeParameterDiscovery, ChargeParameterDiscovery, mode, 1.0)
  {
    k := Step(j, SMOOTH);
  }

  lemma ParametersAnswered(reach: Joint -> bool, j: Joint, ctrl: Controller, mode: EnergyMode) returns (k: Joint)
    requires Met(reach, j, Req(ChargeParameterDiscoveryReq(mode)), ctrl,
                 ChargeParameterDiscovery, ChargeParameterDiscovery, mode, 1.0)
    ensures Met(reach, k, Res(ChargeParameterDiscoveryRes(Ok, true, 1)), ctrl,
                ChargeParameterDiscovery, CableCheck, mode, 1.0)
    ensures !k.se.state.contactorsClosed
  {
    k := Step(j, SMOOTH);
    assert S.Check(j.se.state, "01", j.wire.request) == S.Accept;
  }

  lemma CableCheckAsked(reach: Joint -> bool, j: Joint, ctrl: Controller, mode: EnergyMode) returns (k: Joint)
    requires Met(reach, j, Res(ChargeParameterDiscoveryRes(Ok, true, 1)), ctrl,
                 ChargeParameterDiscovery, CableCheck, mode, 1.0)
    ensures Met(reach, k, Req(CableCheckReq(true)), ctrl, CableCheck, CableCheck, mode, -1.0)
    ensures k.se == j.se
  {
    k := Step(j, SMOOTH);
  }

  lemma ContactorsSeenClosed(reach: Joint -> bool, j: Joint, ctrl: Controller, mode: EnergyMode) returns (k: Joint)
    requires Met(reach, j, Req(CableCheckReq(true)), ctrl, CableCheck, CableCheck, mode, -1.0)
    requires !j.se.state.contactorsClosed
    ensures Met(reach, k, Res(CableCheckRes(Ok, false, true, Valid)), ctrl, CableCheck, CableCheck, mode, -1.0)
    ensures k.se.state.contactorsClosed
  {
    k := Step(j, SMOOTH);
    assert S.Check(j.se.state, "01", j.wire.request) == S.Accept;
  }

  lemma CableCheckRepeated(reach: Joint -> bool, j: Joint, ctrl: Controller, mode: EnergyMode) returns (k: Joint)
    requires Met(reach, j, Res(CableCheckRes(Ok, false, true, Valid)), ctrl, CableCheck, CableCheck, mode, -1.0)
    ensures Met(reach, k, Req(CableCheckReq(true)), ctrl, CableCheck, CableCheck, mode, 1.0)
    ensures k.se == j.se && k.ev.pending == Some(Message("01", CableCheckReq(true))) == k.ev.lastSent
  {
    k := Step(j, SMOOTH);
  }

  lemma IsolationSeenValid(reach: Joint -> bool, j: Joint, ctrl: Controller, mode: EnergyMode) returns (k: Joint)
    requires Met(reach, j, Req(CableCheckReq(true)), ctrl, CableCheck, CableCheck, mode, 1.0)
    requires j.se.state.contactorsClosed
    ensures Met(reach, k, Res(CableCheckRes(Ok, true, true, Valid)), ctrl, CableCheck, PreCharge, mode, 1.0)
  {
    k := Step(j, SMOOTH);
    assert S.Check(j.se.state, "01", j.wire.request) == S.Accept;
  }

  lemma PreChargeAsked(reach: Joint -> bool, j: Joint, ctrl: Controller, mode: EnergyMode) returns (k: Joint)
    requires Met(reach, j, Res(CableCheckRes(Ok, true, true, Valid)), ctrl, CableCheck, PreCharge, mode, 1.0)
    ensures Met(reach, k, PRECHARGE, ctrl, PreCharge, PreCharge, mode, -1.0)
  {
    k := Step(j, SMOOTH);
  }

  lemma PreChargeAnswered(reach: Joint -> bool, j: Joint, ctrl: Controller, mode: EnergyMode) returns (k: Joint)
    requires Met(reach, j, PRECHARGE, ctrl, PreCharge, PreCharge, mode, -1.0)
    ensures Met(reach, k, Res(PreChargeRes(Ok, PRESENT_VOLTAGE)), ctrl, PreCharge, PreCharge, mode, -1.0)
    ensures !k.se.state.expectFirst
  {
    k := Step(j, SMOOTH);
    assert S.Check(j.se.state, "01", j.wire.request) == S.Accept;
  }

  lemma PowerDeliveryAsked(reach: Joint -> bool, j: Joint, ctrl: Controller, mode: EnergyMode) returns (k: Joint)
    requires Met(reach, j, Res(PreChargeRes(Ok, PRESENT_VOLTAGE)), ctrl, PreCharge, PreCharge, mode, -1.0)
    ensures Met(reach, k, Req(PowerDeliveryReq(true, true)), ctrl.AfterContinue(), PowerDelivery, PreCharge, mode, -1.0)
    ensures k.se == j.se
  {
    k := Step(j, SMOOTH);
  }

  lemma PowerDeliveryAnswered(reach: Joint -> bool, j: Joint, ctrl: Controller, mode: EnergyMode) returns (k: Joint)
    requires Met(reach, j, Req(PowerDeliveryReq(true, true)), ctrl, PowerDelivery, PreCharge, mode, -1.0)
    requires !j.se.state.expectFirst
    ensures Met(reach, k, Res(PowerDeliveryRes(Ok)), ctrl, PowerDelivery, CurrentDemand, mode, -1.0)
    ensures k.se.state.expectFirst
  {
    k := Step(j, SMOOTH);
    assert S.Check(j.se.state, "01", j.wire.request) == S.Accept;
    assert S.Check(S.Entered(PowerDelivery), "01", j.wire.request) == S.Accept;
  }

  lemma ReachesAuthentication(reach: Joint -> bool, j: Joint, ctrl: Controller, mode: EnergyMode) returns (k: Joint)
    requires Met(reach, j, ToSecc(Message("00", SessionSetupReq)), ctrl, SessionSetup, SessionSetup, mode, -1.0)
    ensures Met(reach, k, Req(ContractAuthenticationReq), ctrl,
                ContractAuthentication, ContractAuthentication, mode, -1.0)
  {
    k := SetupAnswered(reach, j, ctrl, mode);
    k := DiscoveryAsked(reach, k, ctrl, mode);
    k := DiscoveryAnswered(reach, k, ctrl, mode);
    var n;
    k, n := PaymentAsked(reach, k, ctrl, mode);
    k := PaymentAnswered(reach, k, ctrl, mode, n);
    k := AuthenticationAsked(reach, k, ctrl, mode);
  }

  lemma ReachesIsolation(reach: Joint -> bool, j: Joint, ctrl: Controller, mode: EnergyMode) returns (k: Joint)
    requires Met(reach, j, ToSecc(Message("00", SessionSetupReq)), ctrl, SessionSetup, SessionSetup, mode, -1.0)
    ensures Met(reach, k, Req(CableCheckReq(true)), ctrl, CableCheck, CableCheck, mode, 1.0)
    ensures k.se.state.contactorsClosed
    ensures k.ev.pending == Some(Message("01", CableCheckReq(true))) == k.ev.lastSent
  {
    k := ReachesAuthentication(reach, j, ctrl, mode);
    k := AuthenticationAnswered(reach, k, ctrl, mode, -1.0);
    k := ParametersAsked(reach, k, ctrl, mode);
    k := ParametersAnswered(reach, k, ctrl, mode);
    k := CableCheckAsked(reach, k, ctrl, mode);
    k := ContactorsSeenClosed(reach, k, ctrl, mode);
    k := CableCheckRepeated(reach, k, ctrl, mode);
  }

  lemma ReachesPowerDelivery(reach: Joint -> bool, j: Joint, ctrl: Controller, mode: EnergyMode) returns (k: Joint)
    requires Met(reach, j, ToSecc(Message("00", SessionSetupReq)), ctrl, SessionSetup, SessionSetup, mode, -1.0)
    ensures Met(reach, k, Res(PowerDeliveryRes(Ok)), ctrl.AfterContinue(), PowerDelivery, CurrentDemand, mode, -1.0)
    ensures k.se.state.expectFirst
  {
    k := ReachesIsolation(reach, j, ctrl, mode);
    k := IsolationSeenValid(reach, k, ctrl, mode);
    k := PreChargeAsked(reach, k, ctrl, mode);
    k := PreChargeAnswered(reach, k, ctrl, mode);
    k := PowerDeliveryAsked(reach, k, ctrl, mode);
    k := PowerDeliveryAnswered(reach, k, ctrl.AfterContinue(), mode);
  }

  // ---------------------------------------------------------------------
  // From what is reached to the run that reaches it
  // ---------------------------------------------------------------------

  ghost function ReachedFrom(start: Joint): Joint -> bool {
    j => exists choices :: Run(start, choices) == j
  }

  lemma {:induction false} ReachedIsClosed(start: Joint)
    ensures Closed(ReachedFrom(start)) && ReachedFrom(start)(start)
  {
    var reach := ReachedFrom(start);
    assert Run(start, []) == start;
    forall j, c | reach(j) ensures reach(Step(j, c)) {
      var choices :| Run(start, choices) == j;
      assert AndThen(choices, c)[..|choices|] == choices;
      assert Run(start, AndThen(choices, c)) == Step(j, c);
    }
  }

  lemma BeginMeets(mode: EnergyMode, ctrl: Controller, sessionId: string, modes: seq<EnergyMode>, hlc: bool)
    requires modes != [] && modes[0] == mode && IsDc(mode)
    ensures var start := Begin(mode, ctrl, sessionId, modes, hlc);
            Met(ReachedFrom(start), start, ToSecc(Message("00", SessionSetupReq)), ctrl,
                SessionSetup, SessionSetup, mode, -1.0)
  {
    ReachedIsClosed(Begin(mode, ctrl, sessionId, modes, hlc));
  }

  // ---------------------------------------------------------------------
  // A vehicle that cannot charge does lose step
  // ---------------------------------------------------------------------

  lemma WeldingDetectionAsked(reach: Joint -> bool, j: Joint, ctrl: Controller, mode: EnergyMode) returns (k: Joint)
    requires Met(reach, j, Res(PowerDeliveryRes(Ok)), ctrl, PowerDelivery, CurrentDemand, mode, -1.0)
    requires j.se.state.expectFirst && !ctrl.Continues()
    ensures reach(k) && OutOfStep(k)
  {
    k := Step(j, SMOOTH);
  }

  /** The vehicle that cannot charge asks for welding detection while the station awaits a CurrentDemandReq. */
  lemma LosesStep(mode: EnergyMode, ctrl: Controller, sessionId: string, modes: seq<EnergyMode>, hlc: bool)
    returns (choices: seq<Choice>)
    requires modes != [] && modes[0] == mode && IsDc(mode)
    requires !CanCharge(ctrl)
    ensures LosesStepBy(Begin(mode, ctrl, sessionId, modes, hlc), choices)
  {
    var start := Begin(mode, ctrl, sessionId, modes, hlc);
    var reach := ReachedFrom(start);
    BeginMeets(mode, ctrl, sessionId, modes, hlc);
    var j := ReachesPowerDelivery(reach, start, ctrl, mode);
    j := WeldingDetectionAsked(reach, j, ctrl.AfterContinue(), mode);
    choices :| Run(start, choices) == j;
  }

  ghost predicate LosesStepBy(start: Joint, choices: seq<Choice>) {
    OutOfStep(Run(start, choices))
  }

  /**
   Vehicle and station stay in step in every run if and only if the vehicle's
   controller can be asked to continue twice.
   */
  lemma InStepExactlyWhenItCanCharge(
      mode: EnergyMode, ctrl: Controller, sessionId: string, modes: seq<EnergyMode>, hlc: bool)
    requires modes != [] && modes[0] == mode && IsDc(mode)
    ensures (forall choices :: !LosesStepBy(Begin(mode, ctrl, sessionId, modes, hlc), choices)) <==> CanCharge(ctrl)
  {
    if CanCharge(ctrl) {
      forall choices ensures !LosesStepBy(Begin(mode, ctrl, sessionId, modes, hlc), choices) {
        NeverOutOfStep(mode, ctrl, sessionId, modes, hlc, choices);
      }
    } else {
      var choices := LosesStep(mode, ctrl, sessionId, modes, hlc);
      assert LosesStepBy(Begin(mode, ctrl, sessionId, modes, hlc), choices);
    }
  }

  // ---------------------------------------------------------------------
  // A vehicle that gives up can repeat a request that is no longer wanted
  // ---------------------------------------------------------------------

  /** The authorization is not there yet. */
  const PENDING: Choice := SMOOTH.(env := SMOOTH.env.(accepted := false))
  /** The isolation is good enough for the station, and not reported as valid. */
  const DOUBTFUL: Choice :=
    SMOOTH.(env := SMOOTH.env.(isolation := Some(Warning), evseIsolation := Warning))

  /** The vehicle takes an answer at the given time, after it has waited for it. */
  function AnswerAt(now: real, waited: real): Choice {
    Choice(SMOOTH.env, now, waited)
  }

  /** The vehicle has given up, and what it repeats does not pass the station's checks. */
  ghost predicate RepeatsInVain(j: Joint) {
    && j.ev.status == E.Terminated && j.wire.ToSecc? && j.se.status == S.Running
    && j.ev.lastSent == Some(j.wire.request)
    && S.Check(j.se.state, j.se.sessionId, j.wire.request) != S.Accept
  }

  /** The vehicle has asked for authorization again from a state it has stayed in, its timer running since time 1. */
  ghost predicate AuthenticationHeld(reach: Joint -> bool, j: Joint, ctrl: Controller, mode: EnergyMode) {
    && Met(reach, j, Req(ContractAuthenticationReq), ctrl, ContractAuthentication, ContractAuthentication, mode, 1.0)
    && j.ev.pending == Some(Message("01", ContractAuthenticationReq)) == j.ev.lastSent
  }

  lemma AuthenticationIsPending(reach: Joint -> bool, j: Joint, ctrl: Controller, mode: EnergyMode, t: real)
    returns (k: Joint)
    requires Met(reach, j, Req(ContractAuthenticationReq), ctrl,
                 ContractAuthentication, ContractAuthentication, mode, t)
    ensures Met(reach, k, Res(ContractAuthenticationRes(Ok, false)), ctrl,
                ContractAuthentication, ContractAuthentication, mode, t)
  {
    k := Step(j, PENDING);
    assert S.Check(j.se.state, "01", j.wire.request) == S.Accept;
  }

  /** An Ongoing answer that comes in time is followed by the same request from the same state. */
  lemma AuthenticationWaits(
      reach: Joint -> bool, j: Joint, ctrl: Controller, mode: EnergyMode, t: real, now: real, waited: real)
    returns (k: Joint)
    requires Met(reach, j, Res(ContractAuthenticationRes(Ok, false)), ctrl,
                 ContractAuthentication, ContractAuthentication, mode, t)
    requires waited <= 2.0 && if t == -1.0 then now == 1.0 else t == 1.0 && now <= 61.0
    ensures AuthenticationHeld(reach, k, ctrl, mode)
  {
    k := Step(j, AnswerAt(now, waited));
  }

  /** n + 1 Ongoing answers, two seconds apart. */
  lemma {:induction false} AuthenticationWaitsOn(
      reach: Joint -> bool, j: Joint, ctrl: Controller, mode: EnergyMode, n: nat)
    returns (k: Joint)
    requires Met(reach, j, Req(ContractAuthenticationReq), ctrl,
                 ContractAuthentication, ContractAuthentication, mode, -1.0)
    requires n <= 30
    ensures AuthenticationHeld(reach, k, ctrl, mode)
  {
    if n == 0 {
      k := AuthenticationIsPending(reach, j, ctrl, mode, -1.0);
      k := AuthenticationWaits(reach, k, ctrl, mode, -1.0, 1.0, 0.0);
    } else {
      k := AuthenticationWaitsOn(reach, j, ctrl, mode, n - 1);
      k := AuthenticationIsPending(reach, k, ctrl, mode, 1.0);
      k := AuthenticationWaits(reach, k, ctrl, mode, 1.0, 1.0 + 2.0 * n as real, 2.0);
    }
  }

  lemma LateIsTurnedDown(reach: Joint -> bool, j: Joint, ctrl: Controller, mode: EnergyMode) returns (k: Joint)
    requires Met(reach, j, Res(ContractAuthenticationRes(Ok, true)), ctrl,
                 ContractAuthentication, ChargeParameterDiscovery, mode, 1.0)
    requires j.ev.pending == Some(Message("01", ContractAuthenticationReq)) == j.ev.lastSent
    ensures reach(k) && RepeatsInVain(k)
  {
    k := Step(j, AnswerAt(62.0, 1.0));
  }

  /**
   Ongoing answers come every two seconds from time 1 to time 61, and the authorization
   finishes at time 62: the request is repeated to a station that has gone on.
   */
  lemma LateAuthenticationIsRepeated(
      mode: EnergyMode, ctrl: Controller, sessionId: string, modes: seq<EnergyMode>, hlc: bool)
    returns (choices: seq<Choice>)
    requires modes != [] && modes[0] == mode && IsDc(mode)
    ensures RepeatsInVain(Run(Begin(mode, ctrl, sessionId, modes, hlc), choices))
  {
    var start := Begin(mode, ctrl, sessionId, modes, hlc);
    var reach := ReachedFrom(start);
    BeginMeets(mode, ctrl, sessionId, modes, hlc);
    var j := ReachesAuthentication(reach, start, ctrl, mode);
    j := AuthenticationWaitsOn(reach, j, ctrl, mode, 30);
    j := AuthenticationAnswered(reach, j, ctrl, mode, 1.0);
    j := LateIsTurnedDown(reach, j, ctrl, mode);
    choices :| Run(start, choices) == j;
  }

  lemma IsolationSeenDoubtful(reach: Joint -> bool, j: Joint, ctrl: Controller, mode: EnergyMode) returns (k: Joint)
    requires Met(reach, j, Req(CableCheckReq(true)), ctrl, CableCheck, CableCheck, mode, 1.0)
    requires j.se.state.contactorsClosed
    ensures Met(reach, k, Res(CableCheckRes(Ok, true, true, Warning)), ctrl, CableCheck, PreCharge, mode, 1.0)
    ensures k.ev == j.ev
  {
    k := Step(j, DOUBTFUL);
    assert S.Check(j.se.state, "01", j.wire.request) == S.Accept;
  }

  lemma DoubtfulIsTurnedDown(reach: Joint -> bool, j: Joint, ctrl: Controller, mode: EnergyMode) returns (k: Joint)
    requires Met(reach, j, Res(CableCheckRes(Ok, true, true, Warning)), ctrl, CableCheck, PreCharge, mode, 1.0)
    requires j.ev.pending == Some(Message("01", CableCheckReq(true))) == j.ev.lastSent
    ensures reach(k) && RepeatsInVain(k)
  {
    k := Step(j, SMOOTH);
  }

  /** The cable check finishes without a valid isolation: the request is repeated to a station that has gone on. */
  lemma DoubtfulCableCheckIsRepeated(
      mode: EnergyMode, ctrl: Controller, sessionId: string, modes: seq<EnergyMode>, hlc: bool)
    returns (choices: seq<Choice>)
    requires modes != [] && modes[0] == mode && IsDc(mode)
    ensures RepeatsInVain(Run(Begin(mode, ctrl, sessionId, modes, hlc), choices))
  {
    var start := Begin(mode, ctrl, sessionId, modes, hlc);
    var reach := ReachedFrom(start);
    BeginMeets(mode, ctrl, sessionId, modes, hlc);
    var j := ReachesIsolation(reach, start, ctrl, mode);
    j := IsolationSeenDoubtful(reach, j, ctrl, mode);
    j := DoubtfulIsTurnedDown(reach, j, ctrl, mode);
    choices :| Run(start, choices) == j;
  }

  // ---------------------------------------------------------------------
  // Exactly which sessions complete
  // ---------------------------------------------------------------------

  /** What the EVSE controller reports while the request is processed, where it is asked at all, is no fault. */
  ghost predicate NoFault(se: S.State, q: Request, e: S.Environment) {
    match q
    case CableCheckReq(_) =>
      if se.contactorsClosed then
        && e.isolation != Some(Fault) && e.isolation != Some(Invalid)
        && (e.isolation == Some(Valid) || e.isolation == Some(Warning) ==> e.evseReady && e.evseIsolation == Valid)
      else e.contactorClosed != Some(false)
    case PreChargeReq(_, _, _) =>
      e.presentCurrent.Some? && e.presentCurrent.value <= 2.0 && !e.commandTimesOut
    case PowerDeliveryReq(ready, _) => ready || e.contactorOpened
    case CurrentDemandReq(_, _) => !e.commandTimesOut
    case _ => true
  }

  /** The timer of the vehicle's current state has run out. */
  ghost predicate Expired(ev: E.Evcc, r: Response, now: real) {
    var elapsed := now - ev.ongoingTimer;
    match ev.phase
    case ContractAuthentication => ev.ongoingTimer > 0.0 && elapsed > 60.0
    case ChargeParameterDiscovery => r.Ongoing() && ev.ongoingTimer > 0.0 && elapsed > 60.0
    case CableCheck => r.Ongoing() && ev.ongoingTimer >= 0.0 && elapsed > 40.0
    case PreCharge =>
      && r.PreChargeRes? && !ev.ctrl.Precharged(r.presentVoltage)
      && ev.ongoingTimer >= 0.0 && elapsed > 7.0
    case WeldingDetection => ev.ongoingTimer > 0.0 && elapsed > 60.0
    case _ => false
  }

  /** A request reaches the station within a minute, an answer the vehicle while that waits for it. */
  ghost predicate Timely(j: Joint, c: Choice) {
    match j.wire
    case ToSecc(_) => c.waited <= 60.0
    case ToEvcc(_) => c.waited <= j.ev.timeout
    case Quiet => true
  }

  /** In this turn of a live session the message comes in time, and there is neither a fault nor a timer run out. */
  ghost predicate Fine(j: Joint, c: Choice) {
    j.ev.status == E.Running ==>
      && Timely(j, c)
      && match j.wire
         case ToSecc(m) => NoFault(j.se.state, m.body, c.env)
         case ToEvcc(m) => !Expired(j.ev, m.body, c.now)
         case Quiet => true
  }

  ghost predicate AllFine(j: Joint, choices: seq<Choice>) {
    forall k | 0 <= k < |choices| :: Fine(Run(j, choices[..k]), choices[k])
  }

  /** The vehicle has ended in SessionStop with success, the station has stopped, and nothing is in flight. */
  ghost predicate Completed(j: Joint) {
    && j.ev.status == E.Terminated && j.ev.phase == SessionStop && j.ev.stopReason == Some(true)
    && j.se.status == S.Stopped && j.wire == Quiet
  }

  /** A response that a live vehicle does not turn down. */
  ghost predicate Favourable(r: Response, ev: E.Evcc) {
    && r.Kind().Some? && !r.code.Negative()
    && (r.ServiceDiscoveryRes? ==> r.eimOffered && r.offeredMode == ev.mode)
    && (r.CableCheckRes? && r.finished ==> r.evseReady && r.isolation == Valid)
  }

  /** SessionStop is entered last, and only its answer is still to come. */
  ghost predicate Last(j: Joint) {
    j.ev.status == E.Running && j.ev.phase == SessionStop ==>
      j.ev.pending.None? && (j.wire.ToEvcc? ==> j.se.status == S.Stopped)
  }

  ghost predicate Regular(j: Joint) {
    && Inv(j) && Last(j)
    && IsDc(j.ev.mode) && j.se.modes != [] && j.se.modes[0] == j.ev.mode
    && (j.ev.status == E.Running && j.wire.ToEvcc? ==> Favourable(j.wire.response.body, j.ev))
    && (j.ev.status != E.Running ==> Completed(j))
  }

  /** The vehicle has given up, or will with the answer that is on its way. */
  ghost predicate Doomed(j: Joint) {
    if j.ev.status == E.Running then
      && j.ev.phase != SessionStop && j.ev.next == Stay
      && j.wire.ToEvcc? && j.wire.response.body.Kind() == Some(j.ev.phase)
      && !Favourable(j.wire.response.body, j.ev)
    else !(j.ev.status == E.Terminated && j.ev.phase == SessionStop)
  }

  /** The station's answer is favourable exactly when there is no fault. */
  ghost predicate StationFavours(ev: E.Evcc, se: S.Secc, m: Message<Request>, e: S.Environment) {
    && S.Answer(se, m, e).Some?
    && (Favourable(S.Answer(se, m, e).value.body, ev) <==> NoFault(se.state, m.body, e))
    && S.Receive(se, m, e).modes == se.modes
  }

  lemma SetupFavours(ev: E.Evcc, se: S.Secc, m: Message<Request>, e: S.Environment)
    requires RequestFits(ev, se, m) && se.modes[0] == ev.mode && Bounds.Rank(ev.phase) <= 2
    ensures StationFavours(ev, se, m, e)
  {
    match ev.phase {
      case SessionSetup =>
      case ServiceDiscovery =>
      case ServicePaymentSelection =>
    }
  }

  lemma AuthenticationFavours(ev: E.Evcc, se: S.Secc, m: Message<Request>, e: S.Environment)
    requires RequestFits(ev, se, m) && (ev.phase == ContractAuthentication || ev.phase == ChargeParameterDiscovery)
    ensures StationFavours(ev, se, m, e)
  {}

  /** A prepared reply is favourable exactly when `good`. */
  ghost predicate ReplyFavours(ev: E.Evcc, p: S.Secc, good: bool) {
    p.status == S.Running && p.state.reply.Some? && (Favourable(p.state.reply.value.body, ev) <==> good)
  }

  lemma IsolationFavours(ev: E.Evcc, t: S.Secc, m: Message<Request>, e: S.Environment)
    requires t.status == S.Running && m.body.CableCheckReq? && t.state.contactorsClosed
    ensures ReplyFavours(ev, S.ReadIsolation(t, m, e), NoFault(t.state, m.body, e))
    ensures S.ReadIsolation(t, m, e).modes == t.modes
  {}

  lemma ContactorsFavour(ev: E.Evcc, t: S.Secc, m: Message<Request>, e: S.Environment)
    requires t.status == S.Running && m.body.CableCheckReq? && !t.state.contactorsClosed
    ensures ReplyFavours(ev, S.ReadContactors(t, m, e), NoFault(t.state, m.body, e))
    ensures S.ReadContactors(t, m, e).modes == t.modes
  {}

  lemma CableCheckFavours(ev: E.Evcc, se: S.Secc, m: Message<Request>, e: S.Environment)
    requires RequestFits(ev, se, m) && ev.phase == CableCheck
    ensures StationFavours(ev, se, m, e)
  {
    FittingRequestIsAccepted(ev, se, m);
    var t := se.Logged(S.Received(m.body));
    assert S.Check(t.state, t.sessionId, m) == S.Accept;
    var begun := if t.state.cableCheckStarted then t
                 else t.Logged(S.CableCheckStarted).(state := t.state.(cableCheckStarted := true));
    if begun.state.contactorsClosed {
      IsolationFavours(ev, begun, m, e);
    } else {
      ContactorsFavour(ev, begun, m, e);
    }
  }

  lemma RampUpFavours(ev: E.Evcc, t: S.Secc, m: Message<Request>, e: S.Environment)
    requires t.status == S.Running && m.body.PreChargeReq? && m.body.targetCurrent <= 2.0
    ensures ReplyFavours(ev, S.RampUp(t, m, e), NoFault(t.state, m.body, e))
    ensures S.RampUp(t, m, e).modes == t.modes
  {}

  lemma PreChargeFavours(ev: E.Evcc, se: S.Secc, m: Message<Request>, e: S.Environment)
    requires RequestFits(ev, se, m) && ev.phase == PreCharge
    ensures StationFavours(ev, se, m, e)
  {
    FittingRequestIsAccepted(ev, se, m);
    var t := se.Logged(S.Received(m.body));
    assert S.Check(t.state, t.sessionId, m) == S.Accept;
    RampUpFavours(ev, t, m, e);
  }

  lemma CurrentDemandFavours(ev: E.Evcc, se: S.Secc, m: Message<Request>, e: S.Environment)
    requires RequestFits(ev, se, m) && ev.phase == CurrentDemand
    ensures StationFavours(ev, se, m, e)
  {
    FittingRequestIsAccepted(ev, se, m);
    var t := se.Logged(S.Received(m.body));
    assert S.Check(t.state, t.sessionId, m) == S.Accept;
  }

  lemma PowerDeliveryFavours(ev: E.Evcc, se: S.Secc, m: Message<Request>, e: S.Environment)
    requires RequestFits(ev, se, m) && ev.phase == PowerDelivery
    ensures StationFavours(ev, se, m, e)
  {
    FittingRequestIsAccepted(ev, se, m);
    var t := se.Logged(S.Received(m.body));
    assert S.Check(t.state, t.sessionId, m) == S.Accept;
    assert S.Check(t.Entering(PowerDelivery).state, t.sessionId, m) == S.Accept;
  }

  lemma ClosingFavours(ev: E.Evcc, se: S.Secc, m: Message<Request>, e: S.Environment)
    requires RequestFits(ev, se, m) && (ev.phase == WeldingDetection || ev.phase == SessionStop)
    ensures StationFavours(ev, se, m, e)
    ensures ev.phase == SessionStop ==> S.Receive(se, m, e).status == S.Stopped
  {
    FittingRequestIsAccepted(ev, se, m);
    var t := se.Logged(S.Received(m.body));
    assert S.Check(t.state, t.sessionId, m) == S.Accept;
    assert S.Check(t.Entering(ev.phase).state, t.sessionId, m) == S.Accept;
  }

  lemma StationIsFair(ev: E.Evcc, se: S.Secc, m: Message<Request>, e: S.Environment)
    requires RequestFits(ev, se, m) && se.modes[0] == ev.mode
    ensures StationFavours(ev, se, m, e)
  {
    match ev.phase {
      case ContractAuthentication => AuthenticationFavours(ev, se, m, e);
      case ChargeParameterDiscovery => AuthenticationFavours(ev, se, m, e);
      case CableCheck => CableCheckFavours(ev, se, m, e);
      case PreCharge => PreChargeFavours(ev, se, m, e);
      case CurrentDemand => CurrentDemandFavours(ev, se, m, e);
      case PowerDelivery => PowerDeliveryFavours(ev, se, m, e);
      case WeldingDetection => ClosingFavours(ev, se, m, e);
      case SessionStop => ClosingFavours(ev, se, m, e);
      case _ => SetupFavours(ev, se, m, e);
    }
  }

  lemma StationTurn(j: Joint, c: Choice)
    requires Regular(j) && j.ev.status == E.Running && j.wire.ToSecc?
    ensures if Fine(j, c) then Regular(Step(j, c)) else Doomed(Step(j, c))
  {
    var m := j.wire.request;
    StepKeepsInv(j, c);
    StationIsFair(j.ev, j.se, m, c.env);
    if j.ev.phase == SessionStop {
      ClosingFavours(j.ev, j.se, m, c.env);
    }
  }

  /** A favourable answer that is not too late keeps a live vehicle going unless it is the last one. */
  ghost predicate KeepsGoing(ev: E.Evcc, p: E.Evcc, expired: bool) {
    && p.status == E.Running && p.mode == ev.mode
    && (p.next == Terminate <==> ev.phase == SessionStop || expired)
    && (p.next == Terminate ==> p.phase == ev.phase)
    && (ev.phase == SessionStop ==> p == ev.Finishing())
  }

  lemma EarlyKeepsGoing(ev: E.Evcc, se: S.Secc, m: Message<Response>, now: real)
    requires ResponseFits(ev, se, m) && ev.status == E.Running && Favourable(m.body, ev)
    requires IsDc(ev.mode) && Bounds.Rank(ev.phase) <= 4
    ensures KeepsGoing(ev, E.Process(ev, m, now), Expired(ev, m.body, now))
  {
    assert E.Accepts(ev, m);
  }

  lemma LateKeepsGoing(ev: E.Evcc, se: S.Secc, m: Message<Response>, now: real)
    requires ResponseFits(ev, se, m) && ev.status == E.Running && Favourable(m.body, ev)
    requires Bounds.Rank(ev.phase) > 4
    ensures KeepsGoing(ev, E.Process(ev, m, now), Expired(ev, m.body, now))
  {
    assert E.Accepts(ev, m);
  }

  lemma FavourableKeepsGoing(ev: E.Evcc, se: S.Secc, m: Message<Response>, now: real)
    requires ResponseFits(ev, se, m) && ev.status == E.Running && Favourable(m.body, ev) && IsDc(ev.mode)
    ensures KeepsGoing(ev, E.Process(ev, m, now), Expired(ev, m.body, now))
  {
    if Bounds.Rank(ev.phase) <= 4 {
      EarlyKeepsGoing(ev, se, m, now);
    } else {
      LateKeepsGoing(ev, se, m, now);
    }
  }

  lemma VehicleEntersFresh(ev: E.Evcc, m: Message<Response>, now: real)
    requires Bounds.Settled(ev) && ev.status == E.Running && ev.phase != SessionStop
    requires E.Receive(ev, m, now).status == E.Running && E.Receive(ev, m, now).phase == SessionStop
    ensures E.Receive(ev, m, now).pending.None?
  {
    Bounds.TurnMoves(ev, m, now);
    Bounds.FreshExactlyAfterMoving(ev, m, now);
  }

  lemma VehicleTurn(j: Joint, c: Choice)
    requires Regular(j) && j.ev.status == E.Running && j.wire.ToEvcc?
    ensures if Fine(j, c) then Regular(Step(j, c)) else Doomed(Step(j, c))
  {
    var m := j.wire.response;
    StepKeepsInv(j, c);
    FavourableKeepsGoing(j.ev, j.se, m, c.now);
    if Step(j, c).ev.status == E.Running && Step(j, c).ev.phase == SessionStop {
      VehicleEntersFresh(j.ev, m, c.now);
    }
  }

  /** A vehicle that gets an unfavourable answer gives up where it is. */
  lemma DoomedStays(j: Joint, c: Choice)
    requires Doomed(j)
    ensures Doomed(Step(j, c))
  {}

  /** A regular session stays regular with a turn that is fine, and with any other it is doomed. */
  lemma TurnDecides(j: Joint, c: Choice)
    requires Regular(j)
    ensures if Fine(j, c) then Regular(Step(j, c)) else Doomed(Step(j, c))
  {
    if j.ev.status == E.Running {
      if j.wire.ToSecc? {
        StationTurn(j, c);
      } else {
        VehicleTurn(j, c);
      }
    }
  }

  lemma {:induction false} AllFineGrows(j: Joint, before: seq<Choice>, c: Choice)
    ensures AllFine(j, before + [c]) <==> AllFine(j, before) && Fine(Run(j, before), c)
  {
    var all := before + [c];
    assert forall k | 0 <= k < |before| :: all[..k] == before[..k] && all[k] == before[k];
    assert all[..|before|] == before && all[|before|] == c;
  }

  lemma {:induction false} RunDecides(j: Joint, choices: seq<Choice>)
    requires Regular(j)
    ensures if AllFine(j, choices) then Regular(Run(j, choices)) else Doomed(Run(j, choices))
  {
    if choices != [] {
      var n := |choices| - 1;
      var before, c := choices[..n], choices[n];
      RunDecides(j, before);
      AllFineGrows(j, before, c);
      assert choices == before + [c];
      if AllFine(j, before) {
        TurnDecides(Run(j, before), c);
      } else {
        DoomedStays(Run(j, before), c);
      }
    }
  }

  // ---------------------------------------------------------------------
  // How long they take
  // ---------------------------------------------------------------------

  /** The answers given so far that asked the vehicle to repeat its request. */
  function Waits(j: Joint, choices: seq<Choice>): nat
    decreases |choices|
  {
    if choices == [] then 0
    else
      var before := choices[..|choices| - 1];
      var k := Run(j, before);
      Waits(j, before) + if k.wire.ToEvcc? && k.wire.response.body.Ongoing() then 1 else 0
  }

  /** Turns left to a live session, not counting those for answers that say Ongoing. */
  function TurnsLeft(j: Joint): int {
    2 * Bounds.Future(j.ev) + if j.wire.ToSecc? then 1 else 0
  }

  ghost predicate Counting(j: Joint) {
    Inv(j) && Bounds.Counted(j.ev) && Bounds.Settled(j.ev)
  }

  lemma TurnCounts(j: Joint, c: Choice)
    requires Counting(j) && j.ev.status == E.Running
    ensures Counting(Step(j, c))
    ensures Step(j, c).ev.status == E.Running ==>
              TurnsLeft(Step(j, c)) + 1 <=
              TurnsLeft(j) + if j.wire.ToEvcc? && j.wire.response.body.Ongoing() then 2 else 0
  {
    StepKeepsInv(j, c);
    if j.wire.ToEvcc? {
      Bounds.TurnMakesProgress(j.ev, j.wire.response, c.now);
      Bounds.ProcessCounts(j.ev, j.wire.response, c.now);
      Bounds.ReceiveSettles(j.ev, j.wire.response, c.now);
    } else {
      StationKeepsInv(j.ev, j.se, j.wire.request, c.env);
    }
  }

  lemma EndedVehicleStays(j: Joint, c: Choice)
    requires j.ev.status != E.Running
    ensures Step(j, c).ev == j.ev
  {}

  lemma {:induction false} LiveRunCounts(j: Joint, choices: seq<Choice>)
    requires Counting(j)
    ensures Run(j, choices).ev.status == E.Running ==>
              && Counting(Run(j, choices))
              && TurnsLeft(Run(j, choices)) + |choices| <= TurnsLeft(j) + 2 * Waits(j, choices)
  {
    if choices != [] {
      var before, c := choices[..|choices| - 1], choices[|choices| - 1];
      LiveRunCounts(j, before);
      var k := Run(j, before);
      if k.ev.status == E.Running {
        TurnCounts(k, c);
      } else {
        EndedVehicleStays(k, c);
      }
    }
  }

  /**
   A fresh vehicle configured for c >= 2 cycles and a station offering its DC mode first:
   whatever the EVSE reports and whenever messages arrive, the session is over after
   2c + 36 turns and two more for each Ongoing answer. It has then completed if and only
   if in every turn the message arrived before its reader timed out, the EVSE reported no
   fault, and the timer of the vehicle's state had not run out.
   */
  lemma {:induction false} SessionCompletesExactly(
      mode: EnergyMode, chargeLoopCycle: int, sessionId: string, modes: seq<EnergyMode>, hlc: bool,
      choices: seq<Choice>)
    requires chargeLoopCycle >= 2 && modes != [] && modes[0] == mode && IsDc(mode)
    ensures var start := Begin(mode, Fresh(chargeLoopCycle), sessionId, modes, hlc);
            var j := Run(start, choices);
            && (AllFine(start, choices) ==> j.ev.status == E.Running || Completed(j))
            && (|choices| >= 2 * chargeLoopCycle + 36 + 2 * Waits(start, choices) ==>
                  j.ev.status != E.Running && (Completed(j) <==> AllFine(start, choices)))
  {
    var start := Begin(mode, Fresh(chargeLoopCycle), sessionId, modes, hlc);
    BeginIsRegular(mode, chargeLoopCycle, sessionId, modes, hlc);
    RunDecides(start, choices);
    LiveRunCounts(start, choices);
    var j := Run(start, choices);
    if j.ev.status == E.Running {
      LiveHasTurnsLeft(j);
    }
  }

  lemma BeginIsRegular(
      mode: EnergyMode, chargeLoopCycle: int, sessionId: string, modes: seq<EnergyMode>, hlc: bool)
    requires chargeLoopCycle >= 2 && modes != [] && modes[0] == mode && IsDc(mode)
    ensures var start := Begin(mode, Fresh(chargeLoopCycle), sessionId, modes, hlc);
            Regular(start) && Counting(start) && TurnsLeft(start) == 2 * chargeLoopCycle + 37
  {
    FreshCanCharge(chargeLoopCycle);
    Bounds.FreshCounts(mode, chargeLoopCycle);
  }

  lemma LiveHasTurnsLeft(j: Joint)
    requires Counting(j) && j.ev.status == E.Running
    ensures TurnsLeft(j) >= 2
  {}
}
