/**
 The EV under ISO 15118-2 from Authorization on: the timer for answers that say
 Ongoing, the flag that a charging session is to stop, and the states these lead to.
 */
module Iso2Evcc {
  import opened Common

  const ONGOING_TIMEOUT: real := 60.0
  const CABLE_CHECK_TIMEOUT: real := 40.0
  const PRE_CHARGE_TIMEOUT: real := 7.0
  const AUTHORIZATION_REQ: real := 2.0
  const CHARGE_PARAMETER_DISCOVERY_REQ: real := 2.0
  const CHARGING_STATUS_REQ: real := 2.0
  const METERING_RECEIPT_REQ: real := 2.0
  const POWER_DELIVERY_REQ: real := 5.0
  const CABLE_CHECK_REQ: real := 2.0
  const PRE_CHARGE_REQ: real := 2.0
  const WELDING_DETECTION_REQ: real := 2.0
  const SESSION_STOP_REQ: real := 2.0

  datatype Phase =
    | Authorization | ChargeParameterDiscovery | CableCheck | PreCharge | PowerDelivery
    | ChargingStatus | MeteringReceipt | CurrentDemand | WeldingDetection | SessionStop

  datatype Notification = NoNotification | StopCharging | ReNegotiation

  /** A response, the time it is processed, and what the controller decides meanwhile. */
  datatype Input = Input(
    now: real,
    accepted: bool,           // the right type, not negative, the right session
    finished: bool,           // EVSEProcessing
    ready: bool,              // EVSE ready and isolation valid
    notification: Notification,
    receiptRequired: bool,
    keyReadable: bool,
    precharged: bool,
    continues: bool,
    weldingFinished: bool)

  datatype Status = Running | Failed | Succeeded

  /** timer is negative where it does not run; stop is charging_session_stop_v2. */
  datatype Evcc = Evcc(
    ac: bool,
    energyMode: bool,
    tls: bool,
    phase: Phase,
    status: Status,
    timer: real,
    stop: bool,
    renegotiation: bool,
    wait: real)

  function Fail(s: Evcc): Evcc {
    s.(status := Failed)
  }

  function GoTo(s: Evcc, phase: Phase, wait: real): Evcc {
    s.(phase := phase, wait := wait)
  }

  function Min(a: real, b: real): real {
    if a <= b then a else b
  }

  /** The timer starts with the first such answer and ends the session after the limit. */
  function Ongoing(s: Evcc, now: real, limit: real): (next: Evcc)
    ensures next == s || next == s.(timer := now) || next == Fail(s)
  {
    if s.timer < 0.0 then s.(timer := now)
    else if now - s.timer > limit then Fail(s)
    else s
  }

  /** The wait that keeps within the overall limit. */
  function WaitWithin(s: Evcc, now: real, request: real): real {
    Min(request, ONGOING_TIMEOUT - (if s.timer >= 0.0 then now - s.timer else 0.0))
  }

  function Charge(s: Evcc): Evcc {
    GoTo(s, if s.energyMode && s.ac then ChargingStatus else CurrentDemand, CHARGING_STATUS_REQ)
  }

  function StopCharge(s: Evcc): Evcc {
    GoTo(s, PowerDelivery, POWER_DELIVERY_REQ).(stop := true)
  }

  function ProcessAuthorization(s: Evcc, i: Input): Evcc {
    if i.finished then GoTo(s.(timer := -1.0), ChargeParameterDiscovery, CHARGE_PARAMETER_DISCOVERY_REQ)
    else
      var o := Ongoing(s, i.now, ONGOING_TIMEOUT);
      if o.status.Failed? then o else o.(wait := WaitWithin(s, i.now, AUTHORIZATION_REQ))
  }

  function ProcessChargeParameterDiscovery(s: Evcc, i: Input): Evcc {
    if i.finished then
      var reset := s.(timer := -1.0);
      if s.ac then GoTo(reset, PowerDelivery, POWER_DELIVERY_REQ) else GoTo(reset, CableCheck, CABLE_CHECK_REQ)
    else
      var o := Ongoing(s, i.now, ONGOING_TIMEOUT);
      if o.status.Failed? then o else o.(wait := WaitWithin(s, i.now, CHARGE_PARAMETER_DISCOVERY_REQ))
  }

  function ProcessCableCheck(s: Evcc, i: Input): Evcc {
    if i.finished then
      if i.ready then GoTo(s.(timer := -1.0), PreCharge, PRE_CHARGE_REQ) else Fail(s.(timer := -1.0))
    else
      var o := Ongoing(s, i.now, CABLE_CHECK_TIMEOUT);
      if o.status.Failed? then o else o.(wait := CABLE_CHECK_REQ)
  }

  function ProcessPreCharge(s: Evcc, i: Input): Evcc {
    if i.precharged then GoTo(s.(timer := -1.0), PowerDelivery, POWER_DELIVERY_REQ)
    else
      var o := Ongoing(s, i.now, PRE_CHARGE_TIMEOUT);
      if o.status.Failed? then o else o.(wait := PRE_CHARGE_REQ)
  }

  function ProcessPowerDelivery(s: Evcc, i: Input): Evcc {
    if s.stop && s.ac then GoTo(s, SessionStop, SESSION_STOP_REQ)
    else if s.stop then GoTo(s, WeldingDetection, WELDING_DETECTION_REQ)
    else if s.renegotiation then
      GoTo(s.(renegotiation := false), ChargeParameterDiscovery, CHARGE_PARAMETER_DISCOVERY_REQ)
    else Charge(s)
  }

  /** A stop asked for here is passed on to the station, yet the flag is not set. */
  function ProcessMeteringReceipt(s: Evcc, i: Input): Evcc {
    match i.notification
    case StopCharging => GoTo(s, PowerDelivery, POWER_DELIVERY_REQ)
    case ReNegotiation => GoTo(s.(renegotiation := true), PowerDelivery, POWER_DELIVERY_REQ)
    case NoNotification => Charge(s)
  }

  function ProcessChargingStatus(s: Evcc, i: Input): Evcc {
    if i.receiptRequired && s.tls then
      if i.keyReadable then GoTo(s, MeteringReceipt, METERING_RECEIPT_REQ) else Fail(s)
    else if i.notification.ReNegotiation? then GoTo(s.(renegotiation := true), PowerDelivery, POWER_DELIVERY_REQ)
    else if i.notification.StopCharging? then StopCharge(s)
    else if i.continues then GoTo(s, ChargingStatus, CHARGING_STATUS_REQ)
    else StopCharge(s)
  }

  function ProcessCurrentDemand(s: Evcc, i: Input): Evcc {
    if i.notification.StopCharging? then StopCharge(s)
    else if i.continues then GoTo(s, CurrentDemand, POWER_DELIVERY_REQ)
    else StopCharge(s)
  }

  function ProcessWeldingDetection(s: Evcc, i: Input): Evcc {
    if s.timer > 0.0 && i.now - s.timer > ONGOING_TIMEOUT then Fail(s)
    else
      var o := if s.timer == -1.0 then s.(timer := i.now) else s;
      if i.weldingFinished then GoTo(o, SessionStop, SESSION_STOP_REQ) else o.(wait := WELDING_DETECTION_REQ)
  }

  /** The notification names the way of stopping, and so it must have been set. */
  function ProcessSessionStop(s: Evcc, i: Input): Evcc {
    if s.stop then s.(status := Succeeded) else Fail(s)
  }

  function Process(s: Evcc, i: Input): Evcc {
    if !s.status.Running? then s
    else if !i.accepted then Fail(s)
    else
      match s.phase
      case Authorization => ProcessAuthorization(s, i)
      case ChargeParameterDiscovery => ProcessChargeParameterDiscovery(s, i)
      case CableCheck => ProcessCableCheck(s, i)
      case PreCharge => ProcessPreCharge(s, i)
      case PowerDelivery => ProcessPowerDelivery(s, i)
      case ChargingStatus => ProcessChargingStatus(s, i)
      case MeteringReceipt => ProcessMeteringReceipt(s, i)
      case CurrentDemand => ProcessCurrentDemand(s, i)
      case WeldingDetection => ProcessWeldingDetection(s, i)
      case SessionStop => ProcessSessionStop(s, i)
  }

  /** A session that has reached Authorization. */
  function Initial(ac: bool, energyMode: bool, tls: bool): Evcc {
    Evcc(ac, energyMode, tls, Authorization, Running, -1.0, false, false, AUTHORIZATION_REQ)
  }

  function Run(start: Evcc, inputs: seq<Input>): Evcc {
    if inputs == [] then start else Process(Run(start, inputs[..|inputs| - 1]), inputs[|inputs| - 1])
  }

  // ---------------------------------------------------------------------
  // Stopping
  // ---------------------------------------------------------------------

  /** The states whose waits are cut to the overall limit. */
  predicate Limited(p: Phase) {
    p.Authorization? || p.ChargeParameterDiscovery?
  }

  predicate Timed(p: Phase) {
    Limited(p) || p.CableCheck? || p.PreCharge?
  }

  predicate Stops(s: Evcc) {
    && (s.phase.WeldingDetection? || s.phase.SessionStop? ==> s.stop)
    && (s.stop ==> s.phase.PowerDelivery? || s.phase.WeldingDetection? || s.phase.SessionStop?)
  }

  lemma TimedStops(s: Evcc, i: Input)
    requires Stops(s) && s.status.Running? && i.accepted && Timed(s.phase)
    ensures Stops(Process(s, i)) && !s.stop && !Process(s, i).status.Succeeded?
  {}

  lemma ChargingStops(s: Evcc, i: Input)
    requires Stops(s) && s.status.Running? && i.accepted
    requires s.phase.ChargingStatus? || s.phase.MeteringReceipt? || s.phase.CurrentDemand?
    ensures Stops(Process(s, i)) && !s.stop && !Process(s, i).status.Succeeded?
  {}

  lemma ClosingStops(s: Evcc, i: Input)
    requires Stops(s) && s.status.Running? && i.accepted
    requires s.phase.PowerDelivery? || s.phase.WeldingDetection? || s.phase.SessionStop?
    ensures Stops(Process(s, i)) && Process(s, i).stop == s.stop
    ensures Process(s, i).status.Succeeded? ==> s.stop
  {}

  lemma ProcessStops(s: Evcc, i: Input)
    requires Stops(s)
    ensures Stops(Process(s, i))
    ensures s.stop ==> Process(s, i).stop
    ensures s.status.Running? && Process(s, i).status.Succeeded? ==> s.stop
    ensures !s.status.Running? ==> Process(s, i) == s
  {
    if s.status.Running? && i.accepted {
      if Timed(s.phase) {
        TimedStops(s, i);
      } else if s.phase.ChargingStatus? || s.phase.MeteringReceipt? || s.phase.CurrentDemand? {
        ChargingStops(s, i);
      } else {
        ClosingStops(s, i);
      }
    }
  }

  /**
   In every run WeldingDetection and SessionStop are entered only with the stop
   flag set, so that the final notification can name it; and once the flag is
   set the vehicle never goes back to charging.
   */
  lemma {:induction false} ClosingOnlyWhenStopped(start: Evcc, inputs: seq<Input>)
    requires Stops(start)
    ensures Stops(Run(start, inputs))
    ensures Run(start, inputs).status.Succeeded? && start.status.Running? ==> Run(start, inputs).stop
    ensures start.stop ==> Run(start, inputs).stop
  {
    if inputs != [] {
      ClosingOnlyWhenStopped(start, inputs[..|inputs| - 1]);
      ProcessStops(Run(start, inputs[..|inputs| - 1]), inputs[|inputs| - 1]);
    }
  }

  predicate IsCharging(p: Phase) {
    p.ChargingStatus? || p.MeteringReceipt? || p.CurrentDemand?
  }

  predicate IsClosing(p: Phase) {
    p.WeldingDetection? || p.SessionStop?
  }

  /** A request to renegotiate is remembered only until the answer to its PowerDeliveryReq. */
  predicate Renegotiates(s: Evcc) {
    s.renegotiation ==> s.phase.PowerDelivery? && !s.stop
  }

  lemma ChargingRenegotiates(s: Evcc, i: Input)
    requires Stops(s) && Renegotiates(s) && IsCharging(s.phase)
    ensures Renegotiates(Process(s, i))
  {}

  lemma ProcessRenegotiates(s: Evcc, i: Input)
    requires Stops(s) && Renegotiates(s)
    ensures Renegotiates(Process(s, i))
  {
    if IsCharging(s.phase) {
      ChargingRenegotiates(s, i);
    } else if s.phase.PowerDelivery? {
    } else if Timed(s.phase) {
      TimedForgets(s, i);
    }
  }

  lemma TimedForgets(s: Evcc, i: Input)
    requires Timed(s.phase) && !s.renegotiation
    ensures !Process(s, i).renegotiation
  {}

  lemma {:induction false} RunRenegotiates(start: Evcc, inputs: seq<Input>)
    requires Stops(start) && Renegotiates(start)
    ensures Renegotiates(Run(start, inputs))
  {
    if inputs != [] {
      var before := inputs[..|inputs| - 1];
      RunRenegotiates(start, before);
      ClosingOnlyWhenStopped(start, before);
      ProcessRenegotiates(Run(start, before), inputs[|inputs| - 1]);
    }
  }

  /** A stop that is asked for with a metering receipt, or together with the request for one. */
  predicate Overlooked(s: Evcc, stop: Input) {
    s.phase.MeteringReceipt? || (s.phase.ChargingStatus? && stop.receiptRequired && s.tls)
  }

  lemma StopIsTakenUpExactly(s: Evcc, stop: Input, delivered: Input)
    requires s.status.Running? && IsCharging(s.phase) && !s.stop && !s.renegotiation
    requires stop.accepted && stop.notification.StopCharging? && delivered.accepted
    ensures var next := Process(Process(s, stop), delivered);
            && (IsClosing(next.phase) <==> !Overlooked(s, stop))
            && (next.stop <==> !Overlooked(s, stop))
  {}

  /**
   In every run, a stop that the station asks for while the vehicle is charging makes
   the vehicle close the session, once the next answer is there, if and only if the
   stop was not overlooked: it did not come with a metering receipt, nor with the
   request for one over TLS. An overlooked stop does not even set the flag.
   */
  lemma {:induction false} StopIsFollowedExactly(start: Evcc, inputs: seq<Input>, stop: Input, delivered: Input)
    requires Stops(start) && Renegotiates(start)
    requires var s := Run(start, inputs); s.status.Running? && IsCharging(s.phase)
    requires stop.accepted && stop.notification.StopCharging? && delivered.accepted
    ensures var s := Run(start, inputs);
            var next := Run(start, inputs + [stop] + [delivered]);
            && (IsClosing(next.phase) <==> !Overlooked(s, stop))
            && (next.stop <==> !Overlooked(s, stop))
  {
    var s := Run(start, inputs);
    assert (inputs + [stop])[..|inputs|] == inputs;
    assert (inputs + [stop] + [delivered])[..|inputs| + 1] == inputs + [stop];
    ClosingOnlyWhenStopped(start, inputs);
    RunRenegotiates(start, inputs);
    StopIsTakenUpExactly(s, stop, delivered);
  }

  const ANSWER: Input := Input(1.0, true, true, true, NoNotification, false, true, true, true, true)

  lemma ReachesChargingStatus() returns (inputs: seq<Input>)
    ensures var s := Run(Initial(true, true, true), inputs);
            s == Initial(true, true, true).(phase := ChargingStatus, wait := CHARGING_STATUS_REQ)
  {
    var start := Initial(true, true, true);
    inputs := AndThen([], ANSWER);
    assert Run(start, inputs) == start.(phase := ChargeParameterDiscovery, wait := CHARGE_PARAMETER_DISCOVERY_REQ);
    inputs := AndThen(inputs, ANSWER);
    assert Run(start, inputs) == start.(phase := PowerDelivery, wait := POWER_DELIVERY_REQ);
    inputs := AndThen(inputs, ANSWER);
  }

  /** Both ways of overlooking a stop are reachable, and the vehicle then charges on. */
  lemma OverlookedStopsAreReachable(withReceipt: bool) returns (inputs: seq<Input>, stop: Input)
    ensures stop.accepted && stop.notification.StopCharging?
    ensures var start := Initial(true, true, true);
            var s := Run(start, inputs);
            && s.status.Running? && Overlooked(s, stop) && (s.phase.MeteringReceipt? <==> withReceipt)
            && var next := Run(start, AndThen(AndThen(inputs, stop), ANSWER));
               next.status.Running? && next.phase.ChargingStatus? && !next.stop
  {
    var start := Initial(true, true, true);
    inputs := ReachesChargingStatus();
    var charging := Run(start, inputs);
    if withReceipt {
      inputs := AndThen(inputs, ANSWER.(receiptRequired := true));
      assert Run(start, inputs) == charging.(phase := MeteringReceipt, wait := METERING_RECEIPT_REQ);
      stop := ANSWER.(notification := StopCharging);
    } else {
      stop := ANSWER.(notification := StopCharging, receiptRequired := true);
    }
    var after := AndThen(inputs, stop);
    assert Run(start, after) ==
           if withReceipt then charging.(phase := PowerDelivery, wait := POWER_DELIVERY_REQ)
           else charging.(phase := MeteringReceipt, wait := METERING_RECEIPT_REQ);
  }

  // ---------------------------------------------------------------------
  // Waiting
  // ---------------------------------------------------------------------

  /** The answer says that the station is not done, in the state the vehicle is in. */
  predicate SaysOngoing(p: Phase, i: Input) {
    if p.PreCharge? then !i.precharged else Timed(p) && !i.finished
  }

  /** How an input changes the time of the first Ongoing answer. */
  function NextFirst(s: Evcc, first: Option<real>, i: Input): Option<real> {
    if !s.status.Running? || !i.accepted || !SaysOngoing(s.phase, i) then None
    else if first.Some? then first
    else Some(i.now)
  }

  /** The time of the first of the Ongoing answers that the last inputs are, all in the current state. */
  function FirstOngoing(start: Evcc, inputs: seq<Input>): Option<real> {
    if inputs == [] then None
    else
      var init := inputs[..|inputs| - 1];
      NextFirst(Run(start, init), FirstOngoing(start, init), inputs[|inputs| - 1])
  }

  ghost predicate Clock(inputs: seq<Input>) {
    && (forall i | 0 <= i < |inputs| :: inputs[i].now > 0.0)
    && forall i, j | 0 <= i < j < |inputs| :: inputs[i].now <= inputs[j].now
  }

  predicate TimerIs(s: Evcc, first: Option<real>) {
    s.status.Running? && !s.phase.WeldingDetection? && !s.phase.SessionStop? ==>
      if first.Some? then Timed(s.phase) && s.timer == first.value > 0.0 else s.timer == -1.0
  }

  lemma OngoingTimer(s: Evcc, first: Option<real>, i: Input)
    requires TimerIs(s, first) && i.now > 0.0 && s.status.Running? && i.accepted && SaysOngoing(s.phase, i)
    ensures TimerIs(Process(s, i), NextFirst(s, first, i))
  {}

  lemma FinishedTimer(s: Evcc, i: Input)
    requires s.status.Running? && i.accepted && Timed(s.phase) && !SaysOngoing(s.phase, i)
    ensures TimerIs(Process(s, i), None)
  {}

  lemma OtherTimer(s: Evcc, first: Option<real>, i: Input)
    requires TimerIs(s, first) && s.status.Running? && i.accepted && !Timed(s.phase)
    ensures TimerIs(Process(s, i), None)
  {
    if !IsClosing(s.phase) {
      assert s.timer == -1.0;
      TimerIsLeftAlone(s, i);
    }
  }

  lemma TimerIsLeftAlone(s: Evcc, i: Input)
    requires !Timed(s.phase) && !s.phase.WeldingDetection?
    ensures Process(s, i).timer == s.timer
  {
    match s.phase
    case PowerDelivery =>
    case ChargingStatus =>
    case MeteringReceipt =>
    case CurrentDemand =>
    case SessionStop =>
  }

  lemma ProcessTimer(s: Evcc, first: Option<real>, i: Input)
    requires TimerIs(s, first) && i.now > 0.0
    ensures TimerIs(Process(s, i), NextFirst(s, first, i))
  {
    if s.status.Running? && i.accepted {
      if SaysOngoing(s.phase, i) {
        OngoingTimer(s, first, i);
      } else if Timed(s.phase) {
        FinishedTimer(s, i);
      } else {
        OtherTimer(s, first, i);
      }
    }
  }

  /** The timer runs exactly while Ongoing answers follow each other, and holds the time of the first. */
  lemma {:induction false} TimerIsFirstOngoing(start: Evcc, inputs: seq<Input>)
    requires start.timer == -1.0 && start.phase.Authorization? && Clock(inputs)
    ensures TimerIs(Run(start, inputs), FirstOngoing(start, inputs))
    ensures FirstOngoing(start, inputs).Some? ==> 0.0 < FirstOngoing(start, inputs).value <= inputs[|inputs| - 1].now
  {
    if inputs != [] {
      var init := inputs[..|inputs| - 1];
      TimerIsFirstOngoing(start, init);
      ProcessTimer(Run(start, init), FirstOngoing(start, init), inputs[|inputs| - 1]);
    }
  }

  /** One Ongoing answer, where the timer is right. */
  lemma OngoingWaits(s: Evcc, first: Option<real>, i: Input)
    requires s.status.Running? && Limited(s.phase) && i.accepted && !i.finished
    requires TimerIs(s, first) && (first.Some? ==> first.value <= i.now)
    ensures var next := Process(s, i);
            var since := if first.Some? then first.value else i.now;
            && NextFirst(s, first, i) == Some(since)
            && (next.status.Running? ==> 0.0 <= next.wait <= 2.0 && i.now + next.wait <= since + ONGOING_TIMEOUT)
            && (next.status.Running? <==> i.now - since <= ONGOING_TIMEOUT)
            && (next.status.Running? ==> next.phase == s.phase)
  {}

  lemma ClockPrefix(inputs: seq<Input>, i: Input)
    requires Clock(inputs + [i])
    ensures Clock(inputs) && i.now > 0.0
    ensures inputs != [] ==> inputs[|inputs| - 1].now <= i.now
  {
    var all := inputs + [i];
    assert forall k | 0 <= k < |inputs| :: all[k] == inputs[k];
    assert all[|inputs|] == i;
  }

  /**
   After every Ongoing answer in Authorization or ChargeParameterDiscovery that
   does not end the session, the wait is not negative and is over no later than
   60 seconds after the first such answer.
   */
  lemma {:induction false} WaitsKeepTheLimit(start: Evcc, inputs: seq<Input>, i: Input)
    requires start.timer == -1.0 && start.phase.Authorization? && Clock(inputs + [i])
    requires var s := Run(start, inputs);
             s.status.Running? && Limited(s.phase) && i.accepted && !i.finished
    ensures var s := Run(start, inputs + [i]);
            var first := FirstOngoing(start, inputs + [i]);
            && first.Some?
            && (s.status.Running? ==> 0.0 <= s.wait <= 2.0 && i.now + s.wait <= first.value + ONGOING_TIMEOUT)
            && (s.status.Running? <==> i.now - first.value <= ONGOING_TIMEOUT)
  {
    assert (inputs + [i])[..|inputs|] == inputs;
    ClockPrefix(inputs, i);
    TimerIsFirstOngoing(start, inputs);
    OngoingWaits(Run(start, inputs), FirstOngoing(start, inputs), i);
  }

  /** Every answer arrives before the wait that was set for it is over. */
  ghost predicate InTime(start: Evcc, inputs: seq<Input>) {
    forall k | 0 < k < |inputs| :: inputs[k].now <= inputs[k - 1].now + Run(start, inputs[..k]).wait
  }

  /** A running first Ongoing answer was given in the state the vehicle is still in. */
  lemma OngoingStays(s: Evcc, first: Option<real>, i: Input)
    requires NextFirst(s, first, i).Some?
    ensures Process(s, i).phase == s.phase
  {
    match s.phase
    case Authorization =>
    case ChargeParameterDiscovery =>
    case CableCheck =>
    case PreCharge =>
  }

  lemma {:induction false} LastAnswerStayed(start: Evcc, inputs: seq<Input>)
    requires FirstOngoing(start, inputs).Some? && Limited(Run(start, inputs).phase)
    ensures inputs != []
    ensures var s := Run(start, inputs[..|inputs| - 1]);
            var last := inputs[|inputs| - 1];
            s.status.Running? && Limited(s.phase) && last.accepted && !last.finished
  {
    var init := inputs[..|inputs| - 1];
    OngoingStays(Run(start, init), FirstOngoing(start, init), inputs[|inputs| - 1]);
  }

  lemma {:induction false} FirstGrows(start: Evcc, inputs: seq<Input>, i: Input)
    ensures FirstOngoing(start, inputs + [i]) == NextFirst(Run(start, inputs), FirstOngoing(start, inputs), i)
  {
    assert (inputs + [i])[..|inputs|] == inputs;
  }

  /** An answer that arrives in time after an Ongoing answer arrives within the limit. */
  lemma {:induction false} AnswerWithinTheLimit(start: Evcc, init: seq<Input>, last: Input, at: real)
    requires start.timer == -1.0 && start.phase.Authorization? && Clock(init + [last])
    requires FirstOngoing(start, init + [last]).Some?
    requires var s := Run(start, init + [last]);
             s.status.Running? && Limited(s.phase) && at <= last.now + s.wait
    ensures at <= FirstOngoing(start, init + [last]).value + ONGOING_TIMEOUT
  {
    var inputs := init + [last];
    assert inputs[..|inputs| - 1] == init;
    LastAnswerStayed(start, inputs);
    WaitsKeepTheLimit(start, init, last);
  }

  /** Where answers arrive in time, the timer never ends the session in these two states. */
  lemma {:induction false} TimerNeverExpires(start: Evcc, inputs: seq<Input>, i: Input)
    requires start.timer == -1.0 && start.phase.Authorization?
    requires Clock(inputs + [i]) && InTime(start, inputs + [i])
    requires var s := Run(start, inputs);
             s.status.Running? && Limited(s.phase) && i.accepted && !i.finished
    ensures Run(start, inputs + [i]).status.Running?
  {
    WaitsKeepTheLimit(start, inputs, i);
    FirstGrows(start, inputs, i);
    if FirstOngoing(start, inputs).Some? {
      var all, n := inputs + [i], |inputs|;
      var init, last := inputs[..n - 1], inputs[n - 1];
      assert inputs == init + [last];
      ClockPrefix(inputs, i);
      assert all[..n] == inputs && all[n - 1] == last && all[n] == i;
      AnswerWithinTheLimit(start, init, last, i.now);
    }
  }

  // ---------------------------------------------------------------------
  // The session object and its states
  // ---------------------------------------------------------------------

  class EvccSession {
    const ac: bool
    const energyMode: bool
    const tls: bool
    var phase: Phase
    var status: Status
    var ongoingTimer: real
    var chargingSessionStop: bool
    var renegotiationRequested: bool
    var nextMsgTimeout: real

    ghost function Model(): Evcc
      reads this
    {
      Evcc(ac, energyMode, tls, phase, status,
           ongoingTimer, chargingSessionStop, renegotiationRequested, nextMsgTimeout)
    }

    constructor (isAc: bool, hasEnergyMode: bool, isTls: bool)
      ensures Model() == Initial(isAc, hasEnergyMode, isTls)
    {
      ac, energyMode, tls := isAc, hasEnergyMode, isTls;
      phase, status, ongoingTimer := Authorization, Running, -1.0;
      chargingSessionStop, renegotiationRequested, nextMsgTimeout := false, false, AUTHORIZATION_REQ;
    }

    method CreateNextMessage(next: Phase, timeout: real)
      modifies this`phase, this`nextMsgTimeout
      ensures Model() == GoTo(old(Model()), next, timeout)
    {
      phase, nextMsgTimeout := next, timeout;
    }

    method StopStateMachine()
      modifies this`status
      ensures Model() == Fail(old(Model()))
    {
      status := Failed;
    }

    method StopCharging()
      modifies this
      ensures Model() == StopCharge(old(Model()))
    {
      CreateNextMessage(PowerDelivery, POWER_DELIVERY_REQ);
      chargingSessionStop := true;
    }

    /** Returns the time since the first Ongoing answer, and false if that is too long. */
    method CheckOngoingTimer(now: real, limit: real) returns (elapsed: real, ok: bool)
      requires status.Running?
      modifies this`ongoingTimer, this`status
      ensures Model() == Ongoing(old(Model()), now, limit) && ok == status.Running?
      ensures elapsed == if old(ongoingTimer) >= 0.0 then now - old(ongoingTimer) else 0.0
    {
      elapsed := 0.0;
      if ongoingTimer >= 0.0 {
        elapsed := now - ongoingTimer;
        if elapsed > limit {
          StopStateMachine();
          return elapsed, false;
        }
      } else {
        ongoingTimer := now;
      }
      ok := true;
    }

    method DoAuthorization(i: Input)
      requires status.Running? && phase.Authorization?
      modifies this
      ensures Model() == ProcessAuthorization(old(Model()), i)
    {
      if i.finished {
        ongoingTimer := -1.0;
        CreateNextMessage(ChargeParameterDiscovery, CHARGE_PARAMETER_DISCOVERY_REQ);
        return;
      }
      var elapsed, ok := CheckOngoingTimer(i.now, ONGOING_TIMEOUT);
      if ok {
        CreateNextMessage(Authorization, Min(AUTHORIZATION_REQ, ONGOING_TIMEOUT - elapsed));
      }
    }

    method DoChargeParameterDiscovery(i: Input)
      requires status.Running? && phase.ChargeParameterDiscovery?
      modifies this
      ensures Model() == ProcessChargeParameterDiscovery(old(Model()), i)
    {
      if i.finished {
        ongoingTimer := -1.0;
        if ac {
          CreateNextMessage(PowerDelivery, POWER_DELIVERY_REQ);
        } else {
          CreateNextMessage(CableCheck, CABLE_CHECK_REQ);
        }
        return;
      }
      var elapsed, ok := CheckOngoingTimer(i.now, ONGOING_TIMEOUT);
      if ok {
        CreateNextMessage(ChargeParameterDiscovery, Min(CHARGE_PARAMETER_DISCOVERY_REQ, ONGOING_TIMEOUT - elapsed));
      }
    }

    method DoCableCheck(i: Input)
      requires status.Running? && phase.CableCheck?
      modifies this
      ensures Model() == ProcessCableCheck(old(Model()), i)
    {
      if i.finished {
        ongoingTimer := -1.0;
        if i.ready {
          CreateNextMessage(PreCharge, PRE_CHARGE_REQ);
        } else {
          StopStateMachine();
        }
        return;
      }
      var _, ok := CheckOngoingTimer(i.now, CABLE_CHECK_TIMEOUT);
      if ok {
        CreateNextMessage(CableCheck, CABLE_CHECK_REQ);
      }
    }

    method DoPreCharge(i: Input)
      requires status.Running? && phase.PreCharge?
      modifies this
      ensures Model() == ProcessPreCharge(old(Model()), i)
    {
      if i.precharged {
        ongoingTimer := -1.0;
        CreateNextMessage(PowerDelivery, POWER_DELIVERY_REQ);
        return;
      }
      var _, ok := CheckOngoingTimer(i.now, PRE_CHARGE_TIMEOUT);
      if ok {
        CreateNextMessage(PreCharge, PRE_CHARGE_REQ);
      }
    }

    method DoPowerDelivery(i: Input)
      modifies this
      ensures Model() == ProcessPowerDelivery(old(Model()), i)
    {
      if chargingSessionStop && ac {
        CreateNextMessage(SessionStop, SESSION_STOP_REQ);
      } else if chargingSessionStop {
        CreateNextMessage(WeldingDetection, WELDING_DETECTION_REQ);
      } else if renegotiationRequested {
        renegotiationRequested := false;
        CreateNextMessage(ChargeParameterDiscovery, CHARGE_PARAMETER_DISCOVERY_REQ);
      } else if energyMode && ac {
        CreateNextMessage(ChargingStatus, CHARGING_STATUS_REQ);
      } else {
        CreateNextMessage(CurrentDemand, CHARGING_STATUS_REQ);
      }
    }

    method DoMeteringReceipt(i: Input)
      modifies this
      ensures Model() == ProcessMeteringReceipt(old(Model()), i)
    {
      match i.notification
      case StopCharging => CreateNextMessage(PowerDelivery, POWER_DELIVERY_REQ);
      case ReNegotiation =>
        renegotiationRequested := true;
        CreateNextMessage(PowerDelivery, POWER_DELIVERY_REQ);
      case NoNotification =>
        if energyMode && ac {
          CreateNextMessage(ChargingStatus, CHARGING_STATUS_REQ);
        } else {
          CreateNextMessage(CurrentDemand, CHARGING_STATUS_REQ);
        }
    }

    method DoChargingStatus(i: Input)
      modifies this
      ensures Model() == ProcessChargingStatus(old(Model()), i)
    {
      if i.receiptRequired && tls {
        if i.keyReadable {
          CreateNextMessage(MeteringReceipt, METERING_RECEIPT_REQ);
        } else {
          StopStateMachine();
        }
      } else if i.notification.ReNegotiation? {
        renegotiationRequested := true;
        CreateNextMessage(PowerDelivery, POWER_DELIVERY_REQ);
      } else if !i.notification.StopCharging? && i.continues {
        CreateNextMessage(ChargingStatus, CHARGING_STATUS_REQ);
      } else {
        StopCharging();
      }
    }

    method DoCurrentDemand(i: Input)
      modifies this
      ensures Model() == ProcessCurrentDemand(old(Model()), i)
    {
      if !i.notification.StopCharging? && i.continues {
        CreateNextMessage(CurrentDemand, POWER_DELIVERY_REQ);
      } else {
        StopCharging();
      }
    }

    method DoWeldingDetection(i: Input)
      requires phase.WeldingDetection?
      modifies this
      ensures Model() == ProcessWeldingDetection(old(Model()), i)
    {
      if ongoingTimer > 0.0 {
        if i.now - ongoingTimer > ONGOING_TIMEOUT {
          StopStateMachine();
          return;
        }
      } else if ongoingTimer == -1.0 {
        ongoingTimer := i.now;
      }
      if i.weldingFinished {
        CreateNextMessage(SessionStop, SESSION_STOP_REQ);
      } else {
        CreateNextMessage(WeldingDetection, WELDING_DETECTION_REQ);
      }
    }

    method ProcessMessage(i: Input)
      modifies this
      ensures Model() == Process(old(Model()), i)
    {
      if !status.Running? {
        return;
      }
      if !i.accepted {
        StopStateMachine();
        return;
      }
      match phase
      case Authorization => DoAuthorization(i);
      case ChargeParameterDiscovery => DoChargeParameterDiscovery(i);
      case CableCheck => DoCableCheck(i);
      case PreCharge => DoPreCharge(i);
      case PowerDelivery => DoPowerDelivery(i);
      case ChargingStatus => DoChargingStatus(i);
      case MeteringReceipt => DoMeteringReceipt(i);
      case CurrentDemand => DoCurrentDemand(i);
      case WeldingDetection => DoWeldingDetection(i);
      case SessionStop => status := if chargingSessionStop then Succeeded else Failed;
    }
  }

  /**
   A whole session of the object, from Authorization on: it is what the run of its
   step function is, and it succeeds only after charging was stopped.
   */
  method PlaySession(isAc: bool, hasEnergyMode: bool, isTls: bool, inputs: seq<Input>)
    returns (status: Status, stopped: bool)
    ensures var s := Run(Initial(isAc, hasEnergyMode, isTls), inputs); status == s.status && stopped == s.stop
    ensures status.Succeeded? ==> stopped
  {
    var session := new EvccSession(isAc, hasEnergyMode, isTls);
    ghost var start := session.Model();
    for i := 0 to |inputs|
      invariant session.Model() == Run(start, inputs[..i])
      modifies session
    {
      assert inputs[..i + 1][..i] == inputs[..i];
      session.ProcessMessage(inputs[i]);
    }
    assert inputs[..|inputs|] == inputs;
    ClosingOnlyWhenStopped(start, inputs);
    return session.status, session.chargingSessionStop;
  }
}
