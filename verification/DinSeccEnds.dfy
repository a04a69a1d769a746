/**
 How sessions of a DIN SPEC 70121 charging station end, and what a vehicle can do
 after it has stopped charging: exact conditions, with runs that reach the cases.
 */
module DinSeccEnds {
  import opened Common
  import opened DinMessages
  import opened DinSecc
  import opened DinSeccSafety

  // ---------------------------------------------------------------------
  // HLC charging at the end of a session
  // ---------------------------------------------------------------------

  /** A request to stop charging that the current state takes up. */
  predicate StopsCharging(s: Secc, m: Message<Request>) {
    && m.body.PowerDeliveryReq? && m.body.hasParameter && !m.body.ready
    && Check(s.state, s.sessionId, m).Accept?
  }

  lemma PowerDeliveryEndsHlc(s: Secc, m: Message<Request>, e: Environment)
    requires s.status == Running && s.state.phase == PowerDelivery && m.body.PowerDeliveryReq?
    requires Check(s.state, s.sessionId, m).Accept?
    requires Advance(ProcessPowerDelivery(s, m, e)).status != Running
    ensures ProcessPowerDelivery(s, m, e).hlc <==> s.hlc && !(m.body.hasParameter && !m.body.ready)
  {}

  lemma OtherEndsHlc(s: Secc, m: Message<Request>, e: Environment)
    requires s.status == Running && !(s.state.phase in {PreCharge, PowerDelivery, CurrentDemand})
    ensures Processed(s, m, e).hlc == s.hlc
  {
    match s.state.phase {
      case SessionSetup =>
      case ServiceDiscovery =>
      case ServicePaymentSelection =>
      case ContractAuthentication =>
      case ChargeParameterDiscovery =>
      case CableCheck =>
      case WeldingDetection =>
      case SessionStop =>
    }
  }

  /**
   A request that ends a live session leaves HLC charging on if and only if it
   arrived in CurrentDemand and was no request to stop charging taken up there.
   */
  lemma HlcAtTheEnd(s: Secc, m: Message<Request>, e: Environment)
    requires HlcInStep(s) && s.status == Running && Receive(s, m, e).status != Running
    ensures Receive(s, m, e).hlc <==> s.state.phase == CurrentDemand && !StopsCharging(s, m)
  {
    var t := s.Logged(Received(m.body));
    if s.state.phase in {PreCharge, PowerDelivery, CurrentDemand} {
      if m.body.PowerDeliveryReq? && Check(s.state, s.sessionId, m).Accept? {
        PowerDeliveryEndsHlc(if s.state.phase == PowerDelivery then t else t.Entering(PowerDelivery), m, e);
      }
    } else {
      OtherEndsHlc(s, m, e);
    }
  }

  lemma {:induction false} EndedRunStays(s: Secc, inputs: seq<Input>, k: nat)
    requires k <= |inputs| && Run(s, inputs[..k]).status != Running
    ensures Run(s, inputs) == Run(s, inputs[..k])
    decreases |inputs|
  {
    if k < |inputs| {
      var before := inputs[..|inputs| - 1];
      assert before[..k] == inputs[..k];
      EndedRunStays(s, before, k);
    } else {
      assert inputs[..k] == inputs;
    }
  }

  /** The request that ended a session that started live. */
  lemma {:induction false} EndedBy(s: Secc, inputs: seq<Input>) returns (k: nat)
    requires s.status == Running && Run(s, inputs).status != Running
    ensures k < |inputs| && Run(s, inputs[..k]).status == Running && Run(s, inputs[..k + 1]).status != Running
    decreases |inputs|
  {
    var before := inputs[..|inputs| - 1];
    if Run(s, before).status == Running {
      k := |inputs| - 1;
      assert inputs[..k + 1] == inputs;
    } else {
      k := EndedBy(s, before);
      assert before[..k] == inputs[..k] && before[..k + 1] == inputs[..k + 1];
    }
  }

  /** Request k ended the session. */
  ghost predicate EndedAt(start: Secc, inputs: seq<Input>, k: nat) {
    && k < |inputs| && Run(start, inputs[..k]).status == Running
    && Receive(Run(start, inputs[..k]), inputs[k].message, inputs[k].env).status != Running
  }

  lemma {:induction false} HlcAfterRequest(sessionId: string, modes: seq<EnergyMode>, inputs: seq<Input>, k: nat)
    requires EndedAt(Initial(sessionId, modes, false), inputs, k)
    ensures var start := Initial(sessionId, modes, false);
            var s := Run(start, inputs[..k]);
            Run(start, inputs).hlc <==> s.state.phase == CurrentDemand && !StopsCharging(s, inputs[k].message)
  {
    var start := Initial(sessionId, modes, false);
    var s, i := Run(start, inputs[..k]), inputs[k];
    assert inputs[..k + 1][..k] == inputs[..k];
    assert Run(start, inputs[..k + 1]) == Receive(s, i.message, i.env);
    EndedRunStays(start, inputs, k + 1);
    HlcFollowsCurrentDemand(sessionId, modes, inputs[..k]);
    HlcAtTheEnd(s, i.message, i.env);
  }

  /**
   In every run that starts with HLC charging off and has ended, some request ended it, and
   HLC charging is left on if and only if that request arrived in CurrentDemand and was no
   request to stop charging taken up there.
   */
  lemma {:induction false} HlcLeftOnExactly(sessionId: string, modes: seq<EnergyMode>, inputs: seq<Input>)
    requires Run(Initial(sessionId, modes, false), inputs).status != Running
    ensures var start := Initial(sessionId, modes, false);
            exists k: nat :: EndedAt(start, inputs, k)
    ensures var start := Initial(sessionId, modes, false);
            forall k: nat | EndedAt(start, inputs, k) ::
              var s := Run(start, inputs[..k]);
              Run(start, inputs).hlc <==> s.state.phase == CurrentDemand && !StopsCharging(s, inputs[k].message)
  {
    var start := Initial(sessionId, modes, false);
    var k := EndedBy(start, inputs);
    assert inputs[..k + 1][..k] == inputs[..k];
    assert EndedAt(start, inputs, k);
    forall k: nat | EndedAt(start, inputs, k)
      ensures var s := Run(start, inputs[..k]);
              Run(start, inputs).hlc <==> s.state.phase == CurrentDemand && !StopsCharging(s, inputs[k].message)
    {
      HlcAfterRequest(sessionId, modes, inputs, k);
    }
  }

  // ---------------------------------------------------------------------
  // A run that reaches the charging loop
  // ---------------------------------------------------------------------

  /** A controller that answers everything at once. */
  const SMOOTH: Environment :=
    Environment("01", true, 1, Some(true), Some(Valid), Some(0.0), false, true, true, Valid, 400.0)

  /** The session is live in the given state, with the identifier it was given. */
  predicate Is(s: Secc, modes: seq<EnergyMode>, state: State) {
    s.status == Running && s.sessionId == "01" && s.modes == modes && s.state == state
  }

  /** A state that has answered and stayed in place. */
  function Answered(phase: Phase, expectFirst: bool, closed: bool, r: Response): State {
    State(phase, expectFirst, closed, closed, Stay, Some(Message("01", r)))
  }

  const CONTACTORS_SEEN: State := Answered(CableCheck, true, true, CableCheckRes(Ok, false, true, Valid))
  const PRECHARGED: State := Answered(PreCharge, false, false, PreChargeRes(Ok, 400.0))
  const CHARGING: State := Answered(CurrentDemand, false, false, CurrentDemandRes(Ok, true))
  const STOPPED: State := Answered(PowerDelivery, false, false, PowerDeliveryRes(Ok))

  lemma Extend(start: Secc, inputs: seq<Input>, m: Message<Request>, e: Environment) returns (more: seq<Input>)
    ensures Run(start, more) == Receive(Run(start, inputs), m, e)
  {
    more := inputs + [Input(m, e)];
    assert more[..|inputs|] == inputs;
  }

  lemma SetupDone(start: Secc) returns (more: seq<Input>)
    requires start.status == Running && start.state == Entered(SessionSetup)
    ensures Is(Run(start, more), start.modes, Entered(ServiceDiscovery))
  {
    more := Extend(start, [], Message("00", SessionSetupReq), SMOOTH);
  }

  lemma DiscoveryDone(start: Secc, inputs: seq<Input>, modes: seq<EnergyMode>) returns (more: seq<Input>)
    requires Is(Run(start, inputs), modes, Entered(ServiceDiscovery)) && modes != []
    ensures Is(Run(start, more), modes, Entered(ServicePaymentSelection))
  {
    more := Extend(start, inputs, Message("01", ServiceDiscoveryReq), SMOOTH);
  }

  lemma PaymentDone(start: Secc, inputs: seq<Input>, modes: seq<EnergyMode>) returns (more: seq<Input>)
    requires Is(Run(start, inputs), modes, Entered(ServicePaymentSelection))
    ensures Is(Run(start, more), modes, Entered(ContractAuthentication))
  {
    more := Extend(start, inputs, Message("01", ServicePaymentSelectionReq(true, 1)), SMOOTH);
  }

  lemma AuthenticationDone(start: Secc, inputs: seq<Input>, modes: seq<EnergyMode>) returns (more: seq<Input>)
    requires Is(Run(start, inputs), modes, Entered(ContractAuthentication))
    ensures Is(Run(start, more), modes, Entered(ChargeParameterDiscovery))
  {
    more := Extend(start, inputs, Message("01", ContractAuthenticationReq), SMOOTH);
  }

  lemma ParametersDone(start: Secc, inputs: seq<Input>, modes: seq<EnergyMode>) returns (more: seq<Input>)
    requires Is(Run(start, inputs), modes, Entered(ChargeParameterDiscovery)) && modes != []
    ensures Is(Run(start, more), modes, Entered(CableCheck))
  {
    more := Extend(start, inputs, Message("01", ChargeParameterDiscoveryReq(modes[0])), SMOOTH);
  }

  lemma ContactorsDone(start: Secc, inputs: seq<Input>, modes: seq<EnergyMode>) returns (more: seq<Input>)
    requires Is(Run(start, inputs), modes, Entered(CableCheck))
    ensures Is(Run(start, more), modes, CONTACTORS_SEEN)
  {
    more := Extend(start, inputs, Message("01", CableCheckReq(true)), SMOOTH);
  }

  lemma IsolationDone(start: Secc, inputs: seq<Input>, modes: seq<EnergyMode>) returns (more: seq<Input>)
    requires Is(Run(start, inputs), modes, CONTACTORS_SEEN)
    ensures Is(Run(start, more), modes, Entered(PreCharge))
  {
    more := Extend(start, inputs, Message("01", CableCheckReq(true)), SMOOTH);
  }

  lemma PreChargeDone(start: Secc, inputs: seq<Input>, modes: seq<EnergyMode>) returns (more: seq<Input>)
    requires Is(Run(start, inputs), modes, Entered(PreCharge))
    ensures Is(Run(start, more), modes, PRECHARGED)
  {
    more := Extend(start, inputs, Message("01", PreChargeReq(true, 400.0, 1.0)), SMOOTH);
  }

  lemma StartDone(start: Secc, inputs: seq<Input>, modes: seq<EnergyMode>) returns (more: seq<Input>)
    requires Is(Run(start, inputs), modes, PRECHARGED)
    ensures Is(Run(start, more), modes, Entered(CurrentDemand)) && Run(start, more).hlc
  {
    more := Extend(start, inputs, Message("01", PowerDeliveryReq(true, true)), SMOOTH);
    var m := Message("01", PowerDeliveryReq(true, true));
    assert Check(PRECHARGED, "01", m) == Accept && Check(Entered(PowerDelivery), "01", m) == Accept;
  }

  lemma ReachesCharging(start: Secc) returns (inputs: seq<Input>)
    requires start.status == Running && start.state == Entered(SessionSetup) && start.modes != []
    ensures Is(Run(start, inputs), start.modes, Entered(CurrentDemand)) && Run(start, inputs).hlc
  {
    inputs := SetupDone(start);
    inputs := DiscoveryDone(start, inputs, start.modes);
    inputs := PaymentDone(start, inputs, start.modes);
    inputs := AuthenticationDone(start, inputs, start.modes);
    inputs := ParametersDone(start, inputs, start.modes);
    inputs := ContactorsDone(start, inputs, start.modes);
    inputs := IsolationDone(start, inputs, start.modes);
    inputs := PreChargeDone(start, inputs, start.modes);
    inputs := StartDone(start, inputs, start.modes);
  }

  /** Every station with an energy mode has a run that ends with HLC charging still on. */
  lemma HlcCanBeLeftOn(sessionId: string, modes: seq<EnergyMode>, hlc: bool) returns (inputs: seq<Input>)
    requires modes != []
    ensures var s := Run(Initial(sessionId, modes, hlc), inputs); s.status == Stopped && s.hlc
  {
    var start := Initial(sessionId, modes, hlc);
    inputs := ReachesCharging(start);
    inputs := Extend(start, inputs, Message("01", CurrentDemandReq(400.0, 10.0)), SMOOTH.(commandTimesOut := true));
  }

  // ---------------------------------------------------------------------
  // After the contactors were opened
  // ---------------------------------------------------------------------

  /** An event of the checks that precede charging. */
  predicate IsCheck(ev: Event) {
    ev.CableCheckStarted? || ev.ContactorCloseRead? || ev.IsolationRead? || ev.PresentCurrentRead?
    || (ev.ChargingCommand? && ev.precharge)
  }

  predicate IsCharging(ev: Event) {
    ev.ChargingCommand? && !ev.precharge
  }

  /** Whether the last PowerDeliveryReq received after position i was ready to charge, if there was one. */
  function LastDelivery(log: seq<Event>, i: nat): Option<bool> {
    if |log| <= i + 1 then None
    else
      var ev := log[|log| - 1];
      if ev.Received? && ev.request.PowerDeliveryReq? then Some(ev.request.ready)
      else LastDelivery(log[..|log| - 1], i)
  }

  /** Since position i no check was made, and charging commands were given only while charging was asked for again. */
  ghost predicate LogOpened(log: seq<Event>, i: nat) {
    && i < |log|
    && (forall k | i < k < |log| :: !IsCheck(log[k]))
    && (forall k | i < k < |log| && IsCharging(log[k]) :: LastDelivery(log[..k], i) == Some(true))
  }

  /** The states of a live session after the contactors were opened: it charges exactly when asked to again. */
  ghost predicate PhaseOpened(p: Phase, log: seq<Event>, i: nat) {
    && p in {PowerDelivery, CurrentDemand, WeldingDetection, SessionStop}
    && (p == CurrentDemand <==> LastDelivery(log, i) == Some(true))
  }

  ghost predicate Opened(s: Secc, i: nat) {
    LogOpened(s.log, i) && (s.status == Running ==> PhaseOpened(s.state.phase, s.log, i))
  }

  /** The same of a processed request, before its outcome is acted upon. */
  ghost predicate OutcomeOpened(p: Secc, i: nat) {
    && LogOpened(p.log, i)
    && (p.status == Running ==>
          match p.state.next
          case Stay => PhaseOpened(p.state.phase, p.log, i)
          case Goto(phase) => PhaseOpened(phase, p.log, i)
          case Terminate => true)
  }

  lemma OutcomeIsActedUpon(p: Secc, i: nat)
    requires OutcomeOpened(p, i)
    ensures Opened(Advance(p), i)
  {}

  lemma {:induction false} KeepsOpened(log: seq<Event>, ev: Event, i: nat)
    requires LogOpened(log, i) && !IsCheck(ev) && (IsCharging(ev) ==> LastDelivery(log, i) == Some(true))
    ensures LogOpened(log + [ev], i)
    ensures LastDelivery(log + [ev], i) ==
            if ev.Received? && ev.request.PowerDeliveryReq? then Some(ev.request.ready) else LastDelivery(log, i)
  {
    var next := log + [ev];
    assert next[..|log|] == log;
    assert forall k | 0 <= k < |log| :: next[k] == log[k] && next[..k] == log[..k];
  }

  lemma {:induction false} StartOpened(s: Secc, i: nat)
    requires LogOpened(s.log, i) && s.status == Running && LastDelivery(s.log, i) == Some(true)
    ensures OutcomeOpened(StartCharging(s), i)
  {
    KeepsOpened(s.log, HlcSet(true), i);
  }

  lemma {:induction false} StopOpened(s: Secc, m: Message<Request>, e: Environment, i: nat)
    requires LogOpened(s.log, i) && s.status == Running && s.state.phase == PowerDelivery
    requires LastDelivery(s.log, i) != Some(true)
    ensures OutcomeOpened(StopCharging(s, m, e), i)
  {
    StopLogOpened(s.log, e.contactorOpened, i);
    assert StopCharging(s, m, e).log ==
           s.log + [HlcSet(false)] + [ChargerStopped] + [ContactorOpenRead(e.contactorOpened)];
  }

  lemma {:induction false} StopLogOpened(log: seq<Event>, isOpen: bool, i: nat)
    requires LogOpened(log, i)
    ensures var after := log + [HlcSet(false)] + [ChargerStopped] + [ContactorOpenRead(isOpen)];
            LogOpened(after, i) && LastDelivery(after, i) == LastDelivery(log, i)
  {
    KeepsOpened(log, HlcSet(false), i);
    KeepsOpened(log + [HlcSet(false)], ChargerStopped, i);
    KeepsOpened(log + [HlcSet(false)] + [ChargerStopped], ContactorOpenRead(isOpen), i);
  }

  lemma {:induction false} PowerDeliveryOpened(s: Secc, m: Message<Request>, e: Environment, i: nat)
    requires LogOpened(s.log, i) && s.status == Running && s.state.phase == PowerDelivery
    requires LastDelivery(s.log, i) == Some(true) <==> m.body.PowerDeliveryReq? && m.body.ready
    ensures OutcomeOpened(ProcessPowerDelivery(s, m, e), i)
  {
    if Check(s.state, s.sessionId, m).Accept? && m.body.PowerDeliveryReq? && m.body.hasParameter {
      if m.body.ready {
        StartOpened(s, i);
      } else {
        StopOpened(s, m, e, i);
      }
    }
  }

  lemma {:induction false} CurrentDemandOpened(s: Secc, m: Message<Request>, e: Environment, i: nat)
    requires LogOpened(s.log, i) && s.status == Running && s.state.phase == CurrentDemand
    requires LastDelivery(s.log, i) == Some(true) <==> (m.body.PowerDeliveryReq? ==> m.body.ready)
    ensures OutcomeOpened(ProcessCurrentDemand(s, m, e), i)
  {
    if m.body.PowerDeliveryReq? {
      PowerDeliveryOpened(s.Entering(PowerDelivery), m, e, i);
    } else if m.body.CurrentDemandReq? {
      KeepsOpened(s.log, ChargingCommand(m.body.targetVoltage, m.body.targetCurrent, false, !e.commandTimesOut), i);
    }
  }

  lemma ReceiveOpened(s: Secc, m: Message<Request>, e: Environment, i: nat)
    requires Opened(s, i)
    ensures Opened(Receive(s, m, e), i)
  {
    if s.status == Running {
      KeepsOpened(s.log, Received(m.body), i);
      var t := s.Logged(Received(m.body));
      match s.state.phase {
        case PowerDelivery => PowerDeliveryOpened(t, m, e, i);
        case CurrentDemand => CurrentDemandOpened(t, m, e, i);
        case _ => ClosingOpened(t, m, e, i);
      }
      OutcomeIsActedUpon(Process(t, m, e), i);
    }
  }

  lemma {:induction false} ClosingOpened(s: Secc, m: Message<Request>, e: Environment, i: nat)
    requires LogOpened(s.log, i) && s.status == Running
    requires s.state.phase == WeldingDetection || s.state.phase == SessionStop
    requires LastDelivery(s.log, i) == Some(true) ==> m.body.PowerDeliveryReq?
    ensures OutcomeOpened(Process(s, m, e), i)
  {
    ClosingLogs(s, m);
    if Check(s.state, s.sessionId, m).Accept? {
      assert !m.body.PowerDeliveryReq?;
    }
  }

  lemma ClosingLogs(s: Secc, m: Message<Request>)
    ensures s.state.phase == WeldingDetection ==> ProcessWeldingDetection(s, m).log == s.log
    ensures s.state.phase == SessionStop ==> ProcessSessionStop(s, m).log == s.log
  {}

  /** Contactors are read open only by the last event of a request, which then stays in PowerDelivery. */
  ghost predicate OpensLast(from: nat, p: Secc) {
    forall i | from <= i < |p.log| && p.log[i].ContactorOpenRead? ::
      && i == |p.log| - 1
      && (p.status == Running && p.state.next != Terminate ==>
            p.state.next == Stay && p.state.phase == PowerDelivery)
  }

  lemma PowerDeliveryOpensLast(s: Secc, m: Message<Request>, e: Environment)
    requires s.state.phase == PowerDelivery
    ensures OpensLast(|s.log|, ProcessPowerDelivery(s, m, e))
  {}

  lemma EarlyOpensLast(s: Secc, m: Message<Request>, e: Environment)
    requires s.state.phase in {SessionSetup, ServiceDiscovery, ServicePaymentSelection, ContractAuthentication,
                               ChargeParameterDiscovery, CableCheck}
    ensures OpensLast(|s.log|, Process(s, m, e))
  {}

  lemma ClosingOpensLast(s: Secc, m: Message<Request>, e: Environment)
    requires s.state.phase == WeldingDetection || s.state.phase == SessionStop
    ensures OpensLast(|s.log|, Process(s, m, e))
  {}

  lemma ProcessOpensLast(s: Secc, m: Message<Request>, e: Environment)
    ensures OpensLast(|s.log|, Process(s, m, e))
  {
    if s.state.phase == PreCharge || s.state.phase == CurrentDemand {
      PowerDeliveryOpensLast(s.Entering(PowerDelivery), m, e);
    } else if s.state.phase == PowerDelivery {
      PowerDeliveryOpensLast(s, m, e);
    } else if s.state.phase == WeldingDetection || s.state.phase == SessionStop {
      ClosingOpensLast(s, m, e);
    } else {
      EarlyOpensLast(s, m, e);
    }
  }

  lemma NewlyOpened(s: Secc, m: Message<Request>, e: Environment, i: nat)
    requires |s.log| <= i < |Receive(s, m, e).log| && Receive(s, m, e).log[i].ContactorOpenRead?
    ensures Opened(Receive(s, m, e), i)
  {
    var t := s.Logged(Received(m.body));
    ProcessOpensLast(t, m, e);
    var p := Process(t, m, e);
    LogGrows(t, m, e);
    assert p.log[|s.log|] == Received(m.body);
    assert OutcomeOpened(p, i);
    OutcomeIsActedUpon(p, i);
  }

  lemma LogGrowsEarly(s: Secc, m: Message<Request>, e: Environment)
    requires s.state.phase in {SessionSetup, ServiceDiscovery, ServicePaymentSelection, ContractAuthentication,
                               ChargeParameterDiscovery, CableCheck}
    ensures s.log <= Process(s, m, e).log
  {}

  lemma LogGrowsLate(s: Secc, m: Message<Request>, e: Environment)
    ensures s.state.phase == PowerDelivery ==> s.log <= ProcessPowerDelivery(s, m, e).log
    ensures s.state.phase == WeldingDetection ==> s.log <= ProcessWeldingDetection(s, m).log
    ensures s.state.phase == SessionStop ==> s.log <= ProcessSessionStop(s, m).log
  {}

  lemma LogGrows(s: Secc, m: Message<Request>, e: Environment)
    ensures s.log <= Process(s, m, e).log
  {
    match s.state.phase {
      case PreCharge => LogGrowsLate(s.Entering(PowerDelivery), m, e);
      case CurrentDemand => LogGrowsLate(s.Entering(PowerDelivery), m, e);
      case PowerDelivery => LogGrowsLate(s, m, e);
      case WeldingDetection => LogGrowsLate(s, m, e);
      case SessionStop => LogGrowsLate(s, m, e);
      case _ => LogGrowsEarly(s, m, e);
    }
  }

  /**
   In every run, once the contactors have been read open no check is made again:
   neither contactors nor isolation nor present current are read, and nothing is
   precharged. From then on the live session charges exactly while the last
   PowerDeliveryReq since then was ready to charge, and only then commands are given.
   */
  lemma {:induction false} ChargesAgainUnchecked(start: Secc, inputs: seq<Input>, i: nat)
    requires start.log == []
    requires i < |Run(start, inputs).log| && Run(start, inputs).log[i].ContactorOpenRead?
    ensures Opened(Run(start, inputs), i)
    decreases |inputs|
  {
    var before, last := inputs[..|inputs| - 1], inputs[|inputs| - 1];
    var s := Run(start, before);
    if i < |s.log| {
      if s.status == Running {
        LogGrows(s.Logged(Received(last.message.body)), last.message, last.env);
      }
      ChargesAgainUnchecked(start, before, i);
      ReceiveOpened(s, last.message, last.env, i);
    } else {
      NewlyOpened(s, last.message, last.env, i);
    }
  }

  /** The contactors were read open at position i. */
  predicate OpenAt(s: Secc, i: nat) {
    i < |s.log| && s.log[i] == ContactorOpenRead(true)
  }

  /** The last thing done was to give the command, some time after position i. */
  predicate CommandedAfter(s: Secc, i: nat, voltage: real, current: real) {
    i < |s.log| - 1 && s.log[|s.log| - 1] == ChargingCommand(voltage, current, false, true)
  }

  lemma DemandDone(start: Secc, inputs: seq<Input>, modes: seq<EnergyMode>) returns (more: seq<Input>)
    requires Is(Run(start, inputs), modes, Entered(CurrentDemand))
    ensures Is(Run(start, more), modes, CHARGING)
  {
    var m := Message("01", CurrentDemandReq(400.0, 1.0));
    more := Extend(start, inputs, m, SMOOTH);
    assert Check(Entered(CurrentDemand), "01", m) == Accept;
  }

  lemma StopDone(start: Secc, inputs: seq<Input>, modes: seq<EnergyMode>) returns (more: seq<Input>, i: nat)
    requires Is(Run(start, inputs), modes, CHARGING)
    ensures Is(Run(start, more), modes, STOPPED) && OpenAt(Run(start, more), i)
  {
    var m := Message("01", PowerDeliveryReq(false, true));
    more := Extend(start, inputs, m, SMOOTH);
    assert Check(CHARGING, "01", m) == Accept && Check(Entered(PowerDelivery), "01", m) == Accept;
    i := |Run(start, more).log| - 1;
  }

  lemma RestartDone(start: Secc, inputs: seq<Input>, modes: seq<EnergyMode>, i: nat) returns (more: seq<Input>)
    requires Is(Run(start, inputs), modes, STOPPED) && OpenAt(Run(start, inputs), i)
    ensures Is(Run(start, more), modes, Entered(CurrentDemand)) && OpenAt(Run(start, more), i)
  {
    var m := Message("01", PowerDeliveryReq(true, true));
    more := Extend(start, inputs, m, SMOOTH);
    assert Check(STOPPED, "01", m) == Accept;
  }

  lemma CommandDone(
      start: Secc, inputs: seq<Input>, modes: seq<EnergyMode>, i: nat, voltage: real, current: real)
    returns (more: seq<Input>)
    requires Is(Run(start, inputs), modes, Entered(CurrentDemand)) && OpenAt(Run(start, inputs), i)
    ensures OpenAt(Run(start, more), i) && CommandedAfter(Run(start, more), i, voltage, current)
  {
    var m := Message("01", CurrentDemandReq(voltage, current));
    more := Extend(start, inputs, m, SMOOTH);
    assert Check(Entered(CurrentDemand), "01", m) == Accept;
  }

  /** Charging, stopping with the contactors seen open, and being ready to charge again. */
  lemma ReachesRestart(start: Secc) returns (inputs: seq<Input>, i: nat)
    requires start.status == Running && start.state == Entered(SessionSetup) && start.modes != []
    ensures Is(Run(start, inputs), start.modes, Entered(CurrentDemand)) && OpenAt(Run(start, inputs), i)
  {
    inputs := ReachesCharging(start);
    inputs := DemandDone(start, inputs, start.modes);
    inputs, i := StopDone(start, inputs, start.modes);
    inputs := RestartDone(start, inputs, start.modes, i);
  }

  /** Every station with an energy mode can be made to give any command after contactors were open, without a check. */
  lemma CommandWithOpenContactors(
      sessionId: string, modes: seq<EnergyMode>, hlc: bool, voltage: real, current: real)
    returns (inputs: seq<Input>, i: nat)
    requires modes != []
    ensures var s := Run(Initial(sessionId, modes, hlc), inputs);
            && OpenAt(s, i) && CommandedAfter(s, i, voltage, current)
            && forall k | i < k < |s.log| :: !IsCheck(s.log[k])
  {
    var start := Initial(sessionId, modes, hlc);
    inputs, i := ReachesRestart(start);
    inputs := CommandDone(start, inputs, modes, i, voltage, current);
    ChargesAgainUnchecked(start, inputs, i);
  }
}
