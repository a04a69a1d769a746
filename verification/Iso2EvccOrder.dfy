/**
 What the vehicle of ISO 15118-2 does with each answer, told without its timer: when it
 gives up, where it goes and how long it waits; and the order in which it gets to charge.
 */
module Iso2EvccOrder {
  import opened Common
  import opened Iso2Evcc

  // ---------------------------------------------------------------------
  // Since when it waits
  // ---------------------------------------------------------------------

  /** The answer makes the vehicle ask again in the same state. */
  predicate AsksAgain(p: Phase, i: Input) {
    match p
    case Authorization => !i.finished
    case ChargeParameterDiscovery => !i.finished
    case CableCheck => !i.finished
    case PreCharge => !i.precharged
    case WeldingDetection => !i.weldingFinished
    case _ => false
  }

  /** The time of the first of the answers with which the vehicle was last made to ask again. */
  function WaitingSince(start: Evcc, inputs: seq<Input>): Option<real> {
    if inputs == [] then None
    else
      var init, i := inputs[..|inputs| - 1], inputs[|inputs| - 1];
      var s := Run(start, init);
      if !s.status.Running? || !i.accepted || !AsksAgain(s.phase, i) then None
      else if WaitingSince(start, init).Some? then WaitingSince(start, init)
      else Some(i.now)
  }

  predicate TimerHolds(s: Evcc, since: Option<real>) {
    s.status.Running? && !s.phase.SessionStop? ==>
      if since.Some? then s.timer == since.value > 0.0 else s.timer == -1.0
  }

  lemma TimedHolds(s: Evcc, since: Option<real>, i: Input)
    requires TimerHolds(s, since) && s.status.Running? && i.accepted && i.now > 0.0 && Timed(s.phase)
    ensures var next := Process(s, i);
            TimerHolds(next, if !AsksAgain(s.phase, i) then None else if since.Some? then since else Some(i.now))
  {}

  lemma WeldingHolds(s: Evcc, since: Option<real>, i: Input)
    requires TimerHolds(s, since) && s.status.Running? && i.accepted && i.now > 0.0 && s.phase.WeldingDetection?
    ensures var next := Process(s, i);
            TimerHolds(next, if !AsksAgain(s.phase, i) then None else if since.Some? then since else Some(i.now))
  {}

  lemma OtherHolds(s: Evcc, since: Option<real>, i: Input)
    requires TimerHolds(s, since) && s.status.Running? && i.accepted && (IsCharging(s.phase) || s.phase.PowerDelivery?)
    requires since.None?
    ensures TimerHolds(Process(s, i), None) && !AsksAgain(s.phase, i)
  {
    TimerIsLeftAlone(s, i);
  }

  /** In a state that never asks again the vehicle has not been waiting. */
  lemma {:induction false} NotWaiting(start: Evcc, inputs: seq<Input>)
    ensures var p := Run(start, inputs).phase;
            WaitingSince(start, inputs).Some? ==> Timed(p) || p.WeldingDetection?
  {
    if inputs != [] && WaitingSince(start, inputs).Some? {
      var init, i := inputs[..|inputs| - 1], inputs[|inputs| - 1];
      AskingStays(Run(start, init), i);
    }
  }

  lemma AskingStays(s: Evcc, i: Input)
    requires s.status.Running? && i.accepted && AsksAgain(s.phase, i)
    ensures Process(s, i).phase == s.phase && (Timed(s.phase) || s.phase.WeldingDetection?)
  {
    match s.phase
    case Authorization =>
    case ChargeParameterDiscovery =>
    case CableCheck =>
    case PreCharge =>
    case WeldingDetection =>
  }

  /** In every run the timer, welding detection included, stands for the time since when the vehicle waits. */
  lemma {:induction false} TimerIsWaitingSince(start: Evcc, inputs: seq<Input>)
    requires start.timer == -1.0 && start.phase.Authorization? && Clock(inputs)
    ensures TimerHolds(Run(start, inputs), WaitingSince(start, inputs))
  {
    if inputs != [] {
      var init, i := inputs[..|inputs| - 1], inputs[|inputs| - 1];
      TimerIsWaitingSince(start, init);
      NotWaiting(start, init);
      var s, since := Run(start, init), WaitingSince(start, init);
      if s.status.Running? && i.accepted && !s.phase.SessionStop? {
        if Timed(s.phase) {
          TimedHolds(s, since, i);
        } else if s.phase.WeldingDetection? {
          WeldingHolds(s, since, i);
        } else {
          OtherHolds(s, since, i);
        }
      }
    }
  }

  // ---------------------------------------------------------------------
  // What it does with an answer
  // ---------------------------------------------------------------------

  /** More than this many seconds have passed since the vehicle began to wait. */
  predicate Longer(since: Option<real>, now: real, seconds: real) {
    since.Some? && now - since.value > seconds
  }

  /**
   The answers that end the session without success. Waiting for the welding detection alone
   ends with any late answer, elsewhere the answer must also say that more time is needed.
   */
  predicate GivesUp(p: Phase, tls: bool, since: Option<real>, i: Input) {
    || !i.accepted
    || match p
       case Authorization => !i.finished && Longer(since, i.now, 60.0)
       case ChargeParameterDiscovery => !i.finished && Longer(since, i.now, 60.0)
       case CableCheck => if i.finished then !i.ready else Longer(since, i.now, 40.0)
       case PreCharge => !i.precharged && Longer(since, i.now, 7.0)
       case WeldingDetection => Longer(since, i.now, 60.0)
       case ChargingStatus => i.receiptRequired && tls && !i.keyReadable
       case _ => false
  }

  /** Where the vehicle goes, whether it has been told to stop or to renegotiate, and how long it waits. */
  datatype Reaction = Reaction(phase: Phase, stop: bool, renegotiation: bool, wait: real)

  /** What is left of 60 seconds, or two if that is less. */
  function Remaining(since: Option<real>, now: real): real {
    if since.Some? && since.value + 60.0 - now < 2.0 then since.value + 60.0 - now else 2.0
  }

  function ReactionTo(s: Evcc, since: Option<real>, i: Input): Reaction {
    var charging := if s.ac && s.energyMode then ChargingStatus else CurrentDemand;
    match s.phase
    case Authorization =>
      if i.finished then Reaction(ChargeParameterDiscovery, false, false, 2.0)
      else Reaction(Authorization, false, false, Remaining(since, i.now))
    case ChargeParameterDiscovery =>
      if !i.finished then Reaction(ChargeParameterDiscovery, false, false, Remaining(since, i.now))
      else if s.ac then Reaction(PowerDelivery, false, false, 5.0)
      else Reaction(CableCheck, false, false, 2.0)
    case CableCheck => Reaction(if i.finished then PreCharge else CableCheck, false, false, 2.0)
    case PreCharge =>
      if i.precharged then Reaction(PowerDelivery, false, false, 5.0) else Reaction(PreCharge, false, false, 2.0)
    case PowerDelivery =>
      if s.stop then Reaction(if s.ac then SessionStop else WeldingDetection, true, false, 2.0)
      else if s.renegotiation then Reaction(ChargeParameterDiscovery, false, false, 2.0)
      else Reaction(charging, false, false, 2.0)
    case ChargingStatus =>
      if i.receiptRequired && s.tls then Reaction(MeteringReceipt, false, false, 2.0)
      else if i.notification.ReNegotiation? then Reaction(PowerDelivery, false, true, 5.0)
      else if i.notification.NoNotification? && i.continues then Reaction(ChargingStatus, false, false, 2.0)
      else Reaction(PowerDelivery, true, false, 5.0)
    case MeteringReceipt =>
      if i.notification.NoNotification? then Reaction(charging, false, false, 2.0)
      else Reaction(PowerDelivery, false, i.notification.ReNegotiation?, 5.0)
    case CurrentDemand =>
      if !i.notification.StopCharging? && i.continues then Reaction(CurrentDemand, false, false, 5.0)
      else Reaction(PowerDelivery, true, false, 5.0)
    case WeldingDetection => Reaction(if i.weldingFinished then SessionStop else WeldingDetection, true, false, 2.0)
    case SessionStop => Reaction(SessionStop, true, false, s.wait)
  }

  predicate ReactsTo(s: Evcc, since: Option<real>, i: Input, next: Evcc) {
    && (next.status.Failed? <==> GivesUp(s.phase, s.tls, since, i))
    && (next.status.Succeeded? <==> s.phase.SessionStop? && i.accepted)
    && (!next.status.Failed? ==>
          Reaction(next.phase, next.stop, next.renegotiation, next.wait) == ReactionTo(s, since, i))
  }

  lemma TimedReacts(s: Evcc, since: Option<real>, i: Input)
    requires s.status.Running? && TimerHolds(s, since) && Stops(s) && Renegotiates(s) && Timed(s.phase)
    ensures ReactsTo(s, since, i, Process(s, i))
  {}

  lemma ChargingReacts(s: Evcc, since: Option<real>, i: Input)
    requires s.status.Running? && Stops(s) && Renegotiates(s) && IsCharging(s.phase)
    ensures ReactsTo(s, since, i, Process(s, i))
  {}

  lemma ClosingReacts(s: Evcc, since: Option<real>, i: Input)
    requires s.status.Running? && TimerHolds(s, since) && Stops(s) && Renegotiates(s)
    requires IsClosing(s.phase) || s.phase.PowerDelivery?
    ensures ReactsTo(s, since, i, Process(s, i))
  {}

  /**
   In every run from Authorization on, an answer ends the session without success exactly where the
   vehicle gives up, with success exactly in SessionStop, and else has exactly the reaction stated.
   */
  lemma {:induction false} ReactsExactly(
      ac: bool, energyMode: bool, tls: bool, inputs: seq<Input>, i: Input)
    requires var start := Initial(ac, energyMode, tls); Run(start, inputs).status.Running? && Clock(inputs)
    ensures var start := Initial(ac, energyMode, tls);
            ReactsTo(Run(start, inputs), WaitingSince(start, inputs), i, Run(start, inputs + [i]))
  {
    var start := Initial(ac, energyMode, tls);
    var s, since := Run(start, inputs), WaitingSince(start, inputs);
    assert (inputs + [i])[..|inputs|] == inputs;
    TimerIsWaitingSince(start, inputs);
    ClosingOnlyWhenStopped(start, inputs);
    RunRenegotiates(start, inputs);
    if Timed(s.phase) {
      TimedReacts(s, since, i);
    } else if IsCharging(s.phase) {
      ChargingReacts(s, since, i);
    } else {
      ClosingReacts(s, since, i);
    }
  }

  // ---------------------------------------------------------------------
  // The order of the states
  // ---------------------------------------------------------------------

  /** Alternating current needs neither cable check nor welding detection; only there is a status asked for. */
  ghost predicate OnItsPath(s: Evcc) {
    && (s.ac ==> !s.phase.CableCheck? && !s.phase.PreCharge? && !s.phase.WeldingDetection?)
    && (s.ac && s.energyMode ==> !s.phase.CurrentDemand?)
    && (!(s.ac && s.energyMode) ==> !s.phase.ChargingStatus? && !s.phase.MeteringReceipt?)
  }

  ghost predicate SameSettings(s: Evcc, next: Evcc) {
    next.ac == s.ac && next.energyMode == s.energyMode && next.tls == s.tls
  }

  lemma AuthorizationKeepsPath(s: Evcc, i: Input)
    requires OnItsPath(s) && s.phase.Authorization?
    ensures OnItsPath(Process(s, i)) && SameSettings(s, Process(s, i))
  {}

  lemma DiscoveryKeepsPath(s: Evcc, i: Input)
    requires OnItsPath(s) && s.phase.ChargeParameterDiscovery?
    ensures OnItsPath(Process(s, i)) && SameSettings(s, Process(s, i))
  {}

  lemma CheckingKeepsPath(s: Evcc, i: Input)
    requires OnItsPath(s) && (s.phase.CableCheck? || s.phase.PreCharge?)
    ensures OnItsPath(Process(s, i)) && SameSettings(s, Process(s, i))
  {}

  lemma ChargingKeepsPath(s: Evcc, i: Input)
    requires OnItsPath(s) && IsCharging(s.phase)
    ensures OnItsPath(Process(s, i)) && SameSettings(s, Process(s, i))
  {}

  lemma ClosingKeepsPath(s: Evcc, i: Input)
    requires OnItsPath(s) && (IsClosing(s.phase) || s.phase.PowerDelivery?)
    ensures OnItsPath(Process(s, i)) && SameSettings(s, Process(s, i))
  {}

  lemma {:induction false} StaysOnItsPath(ac: bool, energyMode: bool, tls: bool, inputs: seq<Input>)
    ensures var s := Run(Initial(ac, energyMode, tls), inputs);
            OnItsPath(s) && s.ac == ac && s.energyMode == energyMode && s.tls == tls
  {
    if inputs != [] {
      var init := inputs[..|inputs| - 1];
      StaysOnItsPath(ac, energyMode, tls, init);
      var s, i := Run(Initial(ac, energyMode, tls), init), inputs[|inputs| - 1];
      if s.phase.Authorization? {
        AuthorizationKeepsPath(s, i);
      } else if s.phase.ChargeParameterDiscovery? {
        DiscoveryKeepsPath(s, i);
      } else if Timed(s.phase) {
        CheckingKeepsPath(s, i);
      } else if IsCharging(s.phase) {
        ChargingKeepsPath(s, i);
      } else {
        ClosingKeepsPath(s, i);
      }
    }
  }

  /** Answer j found the cable check finished, the station ready and the isolation valid. */
  ghost predicate ChecksCable(start: Evcc, inputs: seq<Input>, j: nat) {
    && j < |inputs| && Run(start, inputs[..j]).phase.CableCheck?
    && inputs[j].accepted && inputs[j].finished && inputs[j].ready
  }

  /** Answer k found the vehicle precharged. */
  ghost predicate Precharges(start: Evcc, inputs: seq<Input>, k: nat) {
    k < |inputs| && Run(start, inputs[..k]).phase.PreCharge? && inputs[k].accepted && inputs[k].precharged
  }

  /** Since answer j the parameters were not up for discussion. */
  ghost predicate NotDiscussed(start: Evcc, inputs: seq<Input>, j: nat) {
    forall l | j < l <= |inputs| :: !Run(start, inputs[..l]).phase.ChargeParameterDiscovery?
  }

  ghost predicate CableChecked(start: Evcc, inputs: seq<Input>) {
    exists j: nat :: ChecksCable(start, inputs, j) && NotDiscussed(start, inputs, j)
  }

  ghost predicate CheckedThenPrecharged(start: Evcc, inputs: seq<Input>, j: nat, k: nat) {
    j < k && ChecksCable(start, inputs, j) && Precharges(start, inputs, k) && NotDiscussed(start, inputs, j)
  }

  ghost predicate ReadyToCharge(start: Evcc, inputs: seq<Input>) {
    exists j: nat, k: nat :: CheckedThenPrecharged(start, inputs, j, k)
  }

  ghost predicate InOrder(start: Evcc, inputs: seq<Input>) {
    var p := Run(start, inputs).phase;
    && (p.PreCharge? ==> CableChecked(start, inputs))
    && (MayCharge(p) ==> ReadyToCharge(start, inputs))
  }

  /** What happened up to a point has happened later, too, unless the parameters are discussed again. */
  lemma {:induction false} StaysNotDiscussed(start: Evcc, inputs: seq<Input>, i: Input, j: nat)
    requires j < |inputs| && NotDiscussed(start, inputs, j)
    requires !Run(start, inputs + [i]).phase.ChargeParameterDiscovery?
    ensures NotDiscussed(start, inputs + [i], j)
    ensures ChecksCable(start, inputs, j) ==> ChecksCable(start, inputs + [i], j)
  {
    var all := inputs + [i];
    assert all[..j] == inputs[..j] && all[..|all|] == all;
    forall l | j < l <= |all| ensures !Run(start, all[..l]).phase.ChargeParameterDiscovery? {
      if l <= |inputs| {
        assert all[..l] == inputs[..l];
      }
    }
  }

  lemma {:induction false} StaysReady(start: Evcc, inputs: seq<Input>, i: Input)
    requires ReadyToCharge(start, inputs) && !Run(start, inputs + [i]).phase.ChargeParameterDiscovery?
    ensures ReadyToCharge(start, inputs + [i])
  {
    var j: nat, k: nat :| CheckedThenPrecharged(start, inputs, j, k);
    StaysNotDiscussed(start, inputs, i, j);
    assert (inputs + [i])[..k] == inputs[..k];
    assert CheckedThenPrecharged(start, inputs + [i], j, k);
  }

  lemma {:induction false} AfterPreCharge(start: Evcc, inputs: seq<Input>, i: Input)
    requires CableChecked(start, inputs) && Run(start, inputs).phase.PreCharge?
    requires !Run(start, inputs + [i]).phase.ChargeParameterDiscovery?
    ensures CableChecked(start, inputs + [i])
    ensures i.accepted && i.precharged ==> ReadyToCharge(start, inputs + [i])
  {
    var j: nat :| ChecksCable(start, inputs, j) && NotDiscussed(start, inputs, j);
    StaysNotDiscussed(start, inputs, i, j);
    assert (inputs + [i])[..|inputs|] == inputs;
    if i.accepted && i.precharged {
      assert CheckedThenPrecharged(start, inputs + [i], j, |inputs|);
    }
  }

  lemma {:induction false} AfterCableCheck(start: Evcc, inputs: seq<Input>, i: Input)
    requires Run(start, inputs).phase.CableCheck? && i.accepted && i.finished && i.ready
    requires !Run(start, inputs + [i]).phase.ChargeParameterDiscovery?
    ensures CableChecked(start, inputs + [i])
  {
    var all := inputs + [i];
    assert all[..|inputs|] == inputs && all[..|all|] == all;
    assert ChecksCable(start, all, |inputs|);
    assert NotDiscussed(start, all, |inputs|);
  }

  /** The states in which current may flow or has flowed. */
  predicate MayCharge(p: Phase) {
    p.PowerDelivery? || p.CurrentDemand? || IsClosing(p)
  }

  /** How a vehicle on direct current gets to PreCharge, and from there on. */
  ghost predicate Entered(s: Evcc, i: Input, p: Phase) {
    && (p.PreCharge? && !s.phase.PreCharge? ==> s.phase.CableCheck? && i.accepted && i.finished && i.ready)
    && (MayCharge(p) ==> MayCharge(s.phase) || (s.phase.PreCharge? && i.accepted && i.precharged))
  }

  lemma EnteredFromTimed(s: Evcc, i: Input)
    requires !s.ac && Timed(s.phase)
    ensures Entered(s, i, Process(s, i).phase)
  {}

  lemma EnteredFromOther(s: Evcc, i: Input)
    requires !s.ac && OnItsPath(s) && MayCharge(s.phase)
    ensures Entered(s, i, Process(s, i).phase)
  {}

  /**
   In every run on direct current, the vehicle is in PreCharge only after a cable check that ended
   with a ready station and valid isolation, and in any state in which current may flow only after
   it was then precharged; both after the parameters were last discussed, so that they are gone
   through again after each renegotiation.
   */
  lemma {:induction false} ChargesOnlyWhenChecked(energyMode: bool, tls: bool, inputs: seq<Input>)
    ensures InOrder(Initial(false, energyMode, tls), inputs)
  {
    var start := Initial(false, energyMode, tls);
    if inputs != [] {
      var init, i := inputs[..|inputs| - 1], inputs[|inputs| - 1];
      assert inputs == init + [i];
      ChargesOnlyWhenChecked(energyMode, tls, init);
      StaysOnItsPath(false, energyMode, tls, init);
      var s, p := Run(start, init), Run(start, inputs).phase;
      if Timed(s.phase) {
        EnteredFromTimed(s, i);
      } else {
        EnteredFromOther(s, i);
      }
      if p.PreCharge? {
        if s.phase.PreCharge? {
          AfterPreCharge(start, init, i);
        } else {
          AfterCableCheck(start, init, i);
        }
      } else if MayCharge(p) {
        if s.phase.PreCharge? {
          AfterPreCharge(start, init, i);
        } else {
          StaysReady(start, init, i);
        }
      }
    }
  }
}
