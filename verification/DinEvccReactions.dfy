/**
 How a DIN SPEC 70121 vehicle reacts to each response: what it asks for next, when it
 gives up, and what becomes of its timer and of its controller.
 */
module DinEvccReactions {
  import opened Common
  import opened DinMessages
  import opened EvController
  import opened DinEvcc
  import opened DinEvccBounds

  datatype Reaction = Asks(request: Request) | GivesUp | Fails | Succeeds

  /** The timer has been running for more than the given seconds. */
  predicate Overdue(s: Evcc, now: real, seconds: real) {
    s.ongoingTimer > 0.0 && now - s.ongoingTimer > seconds
  }

  /** Cycles are left, the battery is not full and charging was not stopped. */
  predicate CanGoOn(c: Controller) {
    c.cycles != 0 && c.soc != 100 && !c.completed
  }

  function AskForParameters(s: Evcc): Reaction {
    if s.mode == DcCore || s.mode == DcExtended then Asks(ChargeParameterDiscoveryReq(s.mode)) else Fails
  }

  /** The reaction to a response that is expected, positive and of the vehicle's session. */
  function ReactionTo(s: Evcc, r: Response, now: real): Reaction {
    match r
    case SessionSetupRes(_) => Asks(ServiceDiscoveryReq)
    case ServiceDiscoveryRes(_, eim, mode) =>
      if eim && mode == s.mode then Asks(ServicePaymentSelectionReq(true, s.services + 1)) else GivesUp
    case ServicePaymentSelectionRes(_) => Asks(ContractAuthenticationReq)
    case ContractAuthenticationRes(_, finished) =>
      if Overdue(s, now, 60.0) then GivesUp
      else if finished then AskForParameters(s)
      else Asks(ContractAuthenticationReq)
    case ChargeParameterDiscoveryRes(_, finished, schedules) =>
      if finished then (if schedules > 0 then Asks(CableCheckReq(true)) else Fails)
      else if Overdue(s, now, 60.0) then GivesUp
      else AskForParameters(s)
    case CableCheckRes(_, finished, ready, level) =>
      if finished then (if ready && level == Valid then Asks(PreChargeReq(true, 500.0, 1.0)) else GivesUp)
      else if s.ongoingTimer >= 0.0 && now - s.ongoingTimer > 40.0 then GivesUp
      else Asks(CableCheckReq(true))
    case PreChargeRes(_, voltage) =>
      if s.ctrl.prechargeCycles == 5 || voltage == 20000.0 then Asks(PowerDeliveryReq(true, true))
      else if s.ongoingTimer >= 0.0 && now - s.ongoingTimer > 7.0 then GivesUp
      else Asks(PreChargeReq(true, 500.0, 1.0))
    case PowerDeliveryRes(_) => Asks(if CanGoOn(s.ctrl) then CurrentDemandReq(500.0, 1.0) else WeldingDetectionReq)
    case CurrentDemandRes(_, ready) =>
      Asks(if ready && CanGoOn(s.ctrl) then CurrentDemandReq(500.0, 1.0) else PowerDeliveryReq(false, true))
    case WeldingDetectionRes(_) =>
      if Overdue(s, now, 60.0) then GivesUp
      else Asks(if s.ctrl.weldingCycles == 3 then SessionStopReq else WeldingDetectionReq)
    case SessionStopRes(_) => Succeeds
    case UnrecognisedRes => GivesUp
  }

  /** The turn of the receive loop shows the reaction. */
  ghost predicate Shows(s: Evcc, m: Message<Response>, p: Evcc, reaction: Reaction) {
    var after := Advance(p);
    match reaction
    case Asks(q) =>
      && p.status == after.status == Running
      && p.pending == Some(Message(if m.body.SessionSetupRes? then m.sessionId else s.sessionId, q))
      && Some(after.phase) == q.Kind() && after.lastSent == p.pending && after.sessionId == p.pending.value.sessionId
    case GivesUp => after.status == Terminated && after.phase == s.phase && after.stopReason == Some(false)
    case Fails => after.status == Crashed
    case Succeeds => after.status == Terminated && after.phase == SessionStop && after.stopReason == Some(true)
  }

  lemma EarlyShows(s: Evcc, m: Message<Response>, now: real)
    requires s.status == Running && s.next == Stay && Accepts(s, m) && Rank(s.phase) <= 3
    ensures Shows(s, m, Process(s, m, now), ReactionTo(s, m.body, now))
  {}

  lemma ParametersShow(s: Evcc, m: Message<Response>, now: real)
    requires s.status == Running && s.next == Stay && Accepts(s, m)
    requires s.phase == ChargeParameterDiscovery || s.phase == CableCheck
    ensures Shows(s, m, Process(s, m, now), ReactionTo(s, m.body, now))
  {}

  lemma ChargingShows(s: Evcc, m: Message<Response>, now: real)
    requires s.status == Running && s.next == Stay && Accepts(s, m)
    requires s.phase == PreCharge || s.phase == PowerDelivery || s.phase == CurrentDemand
    ensures Shows(s, m, Process(s, m, now), ReactionTo(s, m.body, now))
  {}

  lemma ClosingShows(s: Evcc, m: Message<Response>, now: real)
    requires s.status == Running && s.next == Stay && Accepts(s, m)
    requires s.phase == WeldingDetection || s.phase == SessionStop
    ensures Shows(s, m, Process(s, m, now), ReactionTo(s, m.body, now))
  {}

  /** Every live vehicle shows the reaction that belongs to the response, and gives up on one it does not accept. */
  lemma ReactsExactly(s: Evcc, m: Message<Response>, now: real)
    requires s.status == Running && s.next == Stay
    ensures Shows(s, m, Process(s, m, now), if Accepts(s, m) then ReactionTo(s, m.body, now) else GivesUp)
  {
    if Accepts(s, m) {
      if Rank(s.phase) <= 3 {
        EarlyShows(s, m, now);
      } else if Rank(s.phase) <= 5 {
        ParametersShow(s, m, now);
      } else if Rank(s.phase) <= 8 {
        ChargingShows(s, m, now);
      } else {
        ClosingShows(s, m, now);
      }
    }
  }

  // ---------------------------------------------------------------------
  // Timer and controller
  // ---------------------------------------------------------------------

  /** A timer that is not running starts. */
  function Started(timer: real, now: real): real {
    if timer == -1.0 then now else timer
  }

  /** The timer after an accepted response to which the vehicle reacts with another request. */
  function TimerAfter(s: Evcc, r: Response, now: real): real {
    match r
    case ContractAuthenticationRes(_, _) => Started(s.ongoingTimer, now)
    case ChargeParameterDiscoveryRes(_, finished, _) => if finished then -1.0 else Started(s.ongoingTimer, now)
    case CableCheckRes(_, finished, _, _) => if finished then -1.0 else Started(s.ongoingTimer, now)
    case PreChargeRes(_, voltage) =>
      if s.ctrl.prechargeCycles == 5 || voltage == 20000.0 then -1.0
      else if s.ongoingTimer < 0.0 then now
      else s.ongoingTimer
    case WeldingDetectionRes(_) => Started(s.ongoingTimer, now)
    case _ => s.ongoingTimer
  }

  /** One charging cycle: a cycle is used up and the battery gains the whole percents of the increment. */
  function Cycled(c: Controller): Controller {
    if !CanGoOn(c) then c
    else
      var soc := c.soc + c.increment.Floor;
      c.(cycles := c.cycles - 1, soc := if soc < 100 then soc else 100)
  }

  /** The controller after such a response. */
  function ControllerAfter(c: Controller, r: Response): Controller {
    match r
    case PreChargeRes(_, voltage) =>
      if c.prechargeCycles == 5 || voltage == 20000.0 then Cycled(c)
      else c.(prechargeCycles := c.prechargeCycles + 1)
    case PowerDeliveryRes(_) => Cycled(c)
    case CurrentDemandRes(_, ready) => if ready && CanGoOn(c) then Cycled(c) else c.(completed := true)
    case WeldingDetectionRes(_) => if c.weldingCycles == 3 then c else c.(weldingCycles := c.weldingCycles + 1)
    case _ => c
  }

  lemma CycledIsAfterContinue(c: Controller)
    ensures c.AfterContinue() == Cycled(c)
  {
    assert (c.soc as real + c.increment).Floor == c.soc + c.increment.Floor;
  }

  lemma EarlyKeeps(s: Evcc, m: Message<Response>, now: real)
    requires s.status == Running && s.next == Stay && Accepts(s, m) && Rank(s.phase) <= 5
    requires ReactionTo(s, m.body, now).Asks?
    ensures var p := Process(s, m, now);
            p.ongoingTimer == TimerAfter(s, m.body, now) && p.ctrl == ControllerAfter(s.ctrl, m.body)
  {}

  lemma LateKeeps(s: Evcc, m: Message<Response>, now: real)
    requires s.status == Running && s.next == Stay && Accepts(s, m) && Rank(s.phase) > 5
    requires ReactionTo(s, m.body, now).Asks?
    ensures var p := Process(s, m, now);
            p.ongoingTimer == TimerAfter(s, m.body, now) && p.ctrl == ControllerAfter(s.ctrl, m.body)
  {
    CycledIsAfterContinue(s.ctrl);
    CycledIsAfterContinue(s.ctrl.(completed := true));
    CycledIsAfterContinue(s.ctrl.AfterContinue().(completed := true));
  }

  /** With every further request, timer and controller are what the accepted response makes of them. */
  lemma TimerAndControllerExactly(s: Evcc, m: Message<Response>, now: real)
    requires s.status == Running && s.next == Stay && Accepts(s, m) && ReactionTo(s, m.body, now).Asks?
    ensures var after := Receive(s, m, now);
            after.ongoingTimer == TimerAfter(s, m.body, now) && after.ctrl == ControllerAfter(s.ctrl, m.body)
  {
    if Rank(s.phase) <= 5 {
      EarlyKeeps(s, m, now);
    } else {
      LateKeeps(s, m, now);
    }
    ReactsExactly(s, m, now);
  }

  // ---------------------------------------------------------------------
  // The charging loop over whole runs
  // ---------------------------------------------------------------------

  lemma {:induction false} StoppedDemandsNoMore(s: Evcc, more: seq<Input>)
    requires Counted(s) && Settled(s) && s.ctrl.completed
    ensures Sent(s, more, CurrentDemand) == 0
  {
    SentBounded(s, more, CurrentDemand);
  }

  /**
   In every run of a fresh vehicle, an accepted CurrentDemandRes that reaches it in CurrentDemand
   is followed by another CurrentDemandReq if and only if it reports a ready EVSE, cycles are
   left, the state of charge is below 100 and charging was not stopped. Otherwise a
   PowerDeliveryReq to stop follows, and no CurrentDemandReq in the rest of the session.
   */
  lemma {:induction false} DemandsExactlyWhileReady(
      mode: EnergyMode, chargeLoopCycle: int, inputs: seq<Input>, last: Input, more: seq<Input>)
    requires var s := Run(Initial(mode, Fresh(chargeLoopCycle)), inputs);
             s.status == Running && s.phase == CurrentDemand && Accepts(s, last.message)
    ensures var s := Run(Initial(mode, Fresh(chargeLoopCycle)), inputs);
            var ready := last.message.body.CurrentDemandRes? && last.message.body.evseReady;
            var sent, after := Sends(s, last.message, last.now), Receive(s, last.message, last.now);
            if ready && s.ctrl.cycles != 0 && s.ctrl.soc < 100 && !s.ctrl.completed then
              sent == Some(Message(s.sessionId, CurrentDemandReq(500.0, 1.0)))
            else
              && sent == Some(Message(s.sessionId, PowerDeliveryReq(false, true)))
              && Sent(after, more, CurrentDemand) == 0
  {
    var start := Initial(mode, Fresh(chargeLoopCycle));
    var s := Run(start, inputs);
    FreshCounts(mode, chargeLoopCycle);
    RunCounts(start, inputs);
    ReactsExactly(s, last.message, last.now);
    TimerAndControllerExactly(s, last.message, last.now);
    var after := Receive(s, last.message, last.now);
    if !(last.message.body.evseReady && CanGoOn(s.ctrl)) {
      ProcessCounts(s, last.message, last.now);
      ReceiveSettles(s, last.message, last.now);
      StoppedDemandsNoMore(after, more);
    }
  }

  /** The controller after it has been asked n times whether to continue. */
  function Asked(c: Controller, n: nat): Controller {
    if n == 0 then c else Asked(c, n - 1).AfterContinue()
  }

  /** How many of those questions were answered with yes. */
  function Yes(c: Controller, n: nat): nat {
    if n == 0 then 0 else Yes(c, n - 1) + if Asked(c, n - 1).Continues() then 1 else 0
  }

  lemma Scales(a: real, b: real, n: real)
    requires a < b && n > 0.0
    ensures a * n < b * n
  {}

  lemma WholePercents(n: int)
    requires n >= 1
    ensures (100.0 / n as real).Floor == 100 / n
  {
    var m, x, q := n as real, 100.0 / n as real, 100 / n;
    assert x * m == 100.0;
    assert q * n <= 100 < q * n + n;
    assert (q * n) as real == q as real * m && (q as real + 1.0) * m == q as real * m + m;
    if x < q as real {
      Scales(x, q as real, m);
    }
    if q as real + 1.0 < x {
      Scales(q as real + 1.0, x, m);
    }
  }

  /** After `yes` cycles of c, each with a gain of `gain` percent. */
  predicate Charged(now: Controller, c: int, yes: nat, gain: int) {
    && now.cycles == c - yes && yes <= c && !now.completed && now.increment.Floor == gain
    && now.soc == if 10 + yes * gain < 100 then 10 + yes * gain else 100
  }

  lemma ChargedGoesOn(now: Controller, c: int, yes: nat, gain: int)
    requires Charged(now, c, yes, gain)
    ensures now.Continues() <==> yes < c && 10 + yes * gain < 100
    ensures Charged(now.AfterContinue(), c, if now.Continues() then yes + 1 else yes, gain)
  {
    CycledIsAfterContinue(now);
    assert (yes + 1) * gain == yes * gain + gain;
  }

  /**
   A fresh controller configured for c cycles answers yes as long as fewer than c questions were
   answered so and the battery is not full; with every yes the battery gains 100 / c percent.
   */
  lemma {:induction false} SocFollowsTheCycles(chargeLoopCycle: int, n: nat)
    ensures var c, yes := Cycles(chargeLoopCycle), Yes(Fresh(chargeLoopCycle), n);
            var now := Asked(Fresh(chargeLoopCycle), n);
            && Charged(now, c, yes, 100 / c)
            && (now.Continues() <==> yes < c && 10 + yes * (100 / c) < 100)
  {
    var c := Cycles(chargeLoopCycle);
    if n == 0 {
      WholePercents(c);
      ChargedGoesOn(Fresh(chargeLoopCycle), c, 0, 100 / c);
    } else {
      SocFollowsTheCycles(chargeLoopCycle, n - 1);
      var before, yes := Asked(Fresh(chargeLoopCycle), n - 1), Yes(Fresh(chargeLoopCycle), n - 1);
      ChargedGoesOn(before, c, yes, 100 / c);
      ChargedGoesOn(before.AfterContinue(), c, if before.Continues() then yes + 1 else yes, 100 / c);
    }
  }
}
