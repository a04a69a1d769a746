/**
 What every run of a DIN SPEC 70121 vehicle guarantees, whatever the charging
 station answers and whenever it does: how a session ends, how many requests of
 each kind it sends, how long it lasts and how its state of charge moves.
 */
module DinEvccBounds {
  import opened Common
  import opened DinMessages
  import opened EvController
  import opened DinEvcc

  // ---------------------------------------------------------------------
  // The end of a session
  // ---------------------------------------------------------------------

  /** Between responses a live state has decided nothing, and what it holds is what was last sent. */
  ghost predicate Settled(s: Evcc) {
    s.status == Running ==> s.next == Stay && s.lastSent.Some? && (s.pending.Some? ==> s.pending == s.lastSent)
  }

  lemma ProcessKeepsOrReplaces(s: Evcc, m: Message<Response>, now: real)
    requires s.status == Running && s.next == Stay
    ensures var p := Process(s, m, now);
            && p.lastSent == s.lastSent
            && (p.status == Running && p.next == Terminate ==> p.pending == s.pending && p.phase == s.phase)
            && (p.status == Running && p.next != Terminate ==> p.pending.Some?)
            && p.status != Terminated
  {}

  lemma ReceiveSettles(s: Evcc, m: Message<Response>, now: real)
    requires Settled(s)
    ensures Settled(Receive(s, m, now))
  {
    if s.status == Running {
      ProcessKeepsOrReplaces(s, m, now);
    }
  }

  lemma {:induction false} RunSettles(s: Evcc, inputs: seq<Input>)
    requires Settled(s)
    ensures Settled(Run(s, inputs))
  {
    if inputs != [] {
      var last := |inputs| - 1;
      RunSettles(s, inputs[..last]);
      ReceiveSettles(Run(s, inputs[..last]), inputs[last].message, inputs[last].now);
    }
  }

  /**
   The turn that ends a session either sends nothing, exactly when its state was
   freshly entered, or repeats the last request; nothing is sent afterwards.
   */
  lemma {:induction false} TerminationResendsAtMostOnce(
      mode: EnergyMode, ctrl: Controller, inputs: seq<Input>, last: Input, more: seq<Input>)
    requires var s := Run(Initial(mode, ctrl), inputs);
             s.status == Running && Receive(s, last.message, last.now).status == Terminated
    ensures var s := Run(Initial(mode, ctrl), inputs);
            var sent := Sends(s, last.message, last.now);
            && (sent.None? <==> s.pending.None?)
            && (sent.Some? ==> sent == s.lastSent)
            && Receive(s, last.message, last.now).lastSent == s.lastSent
    ensures Run(Run(Initial(mode, ctrl), inputs + [last]), more) == Run(Initial(mode, ctrl), inputs + [last])
    ensures forall k | 0 <= k < |more| ::
              Sends(Run(Run(Initial(mode, ctrl), inputs + [last]), more[..k]), more[k].message, more[k].now).None?
  {
    var s := Run(Initial(mode, ctrl), inputs);
    RunSettles(Initial(mode, ctrl), inputs);
    ProcessKeepsOrReplaces(s, last.message, last.now);
    assert (inputs + [last])[..|inputs|] == inputs;
    EndedStays(Run(Initial(mode, ctrl), inputs + [last]), more);
    forall k | 0 <= k < |more|
      ensures Sends(Run(Run(Initial(mode, ctrl), inputs + [last]), more[..k]), more[k].message, more[k].now).None?
    {
      EndedStays(Run(Initial(mode, ctrl), inputs + [last]), more[..k]);
    }
  }

  lemma {:induction false} EndedStays(s: Evcc, more: seq<Input>)
    requires s.status != Running
    ensures Run(s, more) == s
  {
    if more != [] {
      EndedStays(s, more[..|more| - 1]);
    }
  }

  /** A turn leaves a live state freshly entered exactly when it moved on. */
  lemma FreshExactlyAfterMoving(s: Evcc, m: Message<Response>, now: real)
    requires Settled(s) && s.status == Running && Receive(s, m, now).status == Running
    ensures Receive(s, m, now).pending.None? <==> Process(s, m, now).next.Goto?
  {
    ProcessKeepsOrReplaces(s, m, now);
  }

  // ---------------------------------------------------------------------
  // Counters
  // ---------------------------------------------------------------------

  function Rank(phase: Phase): nat {
    match phase
    case SessionSetup => 0
    case ServiceDiscovery => 1
    case ServicePaymentSelection => 2
    case ContractAuthentication => 3
    case ChargeParameterDiscovery => 4
    case CableCheck => 5
    case PreCharge => 6
    case PowerDelivery => 7
    case CurrentDemand => 8
    case WeldingDetection => 9
    case SessionStop => 10
  }

  /** The counters stay in range and untouched until their phase is reached. */
  ghost predicate Counted(s: Evcc) {
    && 0 <= s.ctrl.prechargeCycles <= 5
    && 0 <= s.ctrl.weldingCycles <= 3
    && 0 <= s.ctrl.cycles
    && 10 <= s.ctrl.soc <= 100
    && s.ctrl.increment > 0.0
    && (Rank(s.phase) < 6 ==> s.ctrl.prechargeCycles == 0)
    && (Rank(s.phase) < 7 ==> s.ctrl.cycles > 0 && s.ctrl.Continues())
    && (Rank(s.phase) < 9 ==> s.ctrl.weldingCycles == 0)
    && (s.phase == CurrentDemand ==> !s.ctrl.completed)
  }

  lemma ChargedRises(c: Controller)
    requires 10 <= c.soc <= 100 && c.increment > 0.0
    ensures c.soc <= c.Charged() <= 100
  {}

  lemma ProcessCounts(s: Evcc, m: Message<Response>, now: real)
    requires Counted(s) && s.status == Running && s.next == Stay
    ensures Counted(Advance(Process(s, m, now)))
    ensures s.ctrl.soc <= Process(s, m, now).ctrl.soc
  {
    ChargedRises(s.ctrl);
    if Accepts(s, m) {
      match s.phase {
        case PreCharge => PrechargeCounts(s, m, now);
        case CurrentDemand => ChargingCounts(s, m);
        case PowerDelivery =>
        case WeldingDetection =>
        case _ => EarlyCounts(s, m, now);
      }
    }
  }

  lemma PrechargeCounts(s: Evcc, m: Message<Response>, now: real)
    requires Counted(s) && s.status == Running && m.body.PreChargeRes? && s.phase == PreCharge
    ensures Counted(Advance(ProcessPreCharge(s, m, now)))
    ensures s.ctrl.soc <= ProcessPreCharge(s, m, now).ctrl.soc
  {
    ChargedRises(s.ctrl);
  }

  lemma ChargingCounts(s: Evcc, m: Message<Response>)
    requires Counted(s) && s.status == Running && m.body.CurrentDemandRes? && s.phase == CurrentDemand
    ensures Counted(Advance(ProcessCurrentDemand(s, m)))
    ensures s.ctrl.soc <= ProcessCurrentDemand(s, m).ctrl.soc
  {
    ChargedRises(s.ctrl);
  }

  lemma EarlyCounts(s: Evcc, m: Message<Response>, now: real)
    requires Counted(s) && s.status == Running && Accepts(s, m) && (Rank(s.phase) < 6 || s.phase == SessionStop)
    ensures Process(s, m, now).ctrl == s.ctrl
    ensures Counted(Advance(Process(s, m, now)))
  {}

  /** How many further requests of a kind a session can send. */
  function Left(s: Evcc, kind: Phase): int {
    match kind
    case PreCharge => if Rank(s.phase) < 6 then 6 else if s.phase == PreCharge then 5 - s.ctrl.prechargeCycles else 0
    case WeldingDetection =>
      if Rank(s.phase) < 9 then 4 else if s.phase == WeldingDetection then 3 - s.ctrl.weldingCycles else 0
    case CurrentDemand =>
      if Rank(s.phase) < 7 then s.ctrl.cycles - 1
      else if s.ctrl.completed || Rank(s.phase) > 8 then 0
      else s.ctrl.cycles
    case _ => 0
  }

  ghost predicate Bounded(kind: Phase) {
    kind == PreCharge || kind == WeldingDetection || kind == CurrentDemand
  }

  function SentKind(s: Evcc, m: Message<Response>, now: real, kind: Phase): nat {
    var sent := Sends(s, m, now);
    if Receive(s, m, now).status == Running && sent.Some? && sent.value.body.Kind() == Some(kind) then 1 else 0
  }

  /** The moves a live session can make in a turn that keeps it alive. */
  ghost predicate Moved(s: Evcc, r: Evcc, ongoing: bool) {
    match s.phase
    case PreCharge =>
      || (r.phase == PreCharge && r.ctrl == s.ctrl.(prechargeCycles := s.ctrl.prechargeCycles + 1)
          && s.ctrl.prechargeCycles != 5)
      || (r.phase == PowerDelivery && r.ctrl == s.ctrl.AfterContinue())
    case PowerDelivery =>
      if s.ctrl.Continues() then r.phase == CurrentDemand && r.ctrl == s.ctrl.AfterContinue()
      else r.phase == WeldingDetection && r.ctrl == s.ctrl
    case CurrentDemand =>
      || (r.phase == CurrentDemand && s.ctrl.Continues() && r.ctrl == s.ctrl.AfterContinue())
      || (r.phase == PowerDelivery && r.ctrl == s.ctrl.(completed := true))
    case WeldingDetection =>
      if s.ctrl.WeldingFinished() then r.phase == SessionStop && r.ctrl == s.ctrl
      else r.phase == WeldingDetection && r.ctrl == s.ctrl.AfterWeldingCheck()
    case SessionStop => false
    case _ => r.ctrl == s.ctrl && (Rank(r.phase) == Rank(s.phase) + 1 || (r.phase == s.phase && ongoing))
  }

  /** The turn ended the session, or it moved and sent a request of the kind of the phase then waited for. */
  ghost predicate MovedAndSent(s: Evcc, p: Evcc, ongoing: bool) {
    var r := Advance(p);
    r.status == Running ==>
      Moved(s, r, ongoing) && p.pending.Some? && p.pending.value.body.Kind() == Some(r.phase)
  }

  lemma EarlyMoves(s: Evcc, m: Message<Response>, now: real)
    requires s.status == Running && s.next == Stay && Accepts(s, m) && Rank(s.phase) < 6
    ensures MovedAndSent(s, Process(s, m, now), m.body.Ongoing())
  {}

  lemma PrechargeMoves(s: Evcc, m: Message<Response>, now: real)
    requires s.status == Running && m.body.PreChargeRes? && s.phase == PreCharge
    ensures MovedAndSent(s, ProcessPreCharge(s, m, now), false)
  {}

  lemma ChargingMoves(s: Evcc, m: Message<Response>)
    requires s.status == Running && m.body.CurrentDemandRes? && s.phase == CurrentDemand
    ensures MovedAndSent(s, ProcessCurrentDemand(s, m), false)
  {}

  lemma TurnMoves(s: Evcc, m: Message<Response>, now: real)
    requires Settled(s) && s.status == Running && Receive(s, m, now).status == Running
    ensures Moved(s, Receive(s, m, now), m.body.Ongoing())
    ensures Sends(s, m, now).Some? && Sends(s, m, now).value.body.Kind() == Some(Receive(s, m, now).phase)
  {
    if Accepts(s, m) {
      assert MovedAndSent(s, Process(s, m, now), m.body.Ongoing()) by {
        match s.phase {
          case PreCharge => PrechargeMoves(s, m, now);
          case CurrentDemand => ChargingMoves(s, m);
          case PowerDelivery =>
          case WeldingDetection =>
          case SessionStop =>
          case _ => EarlyMoves(s, m, now);
        }
      }
    }
  }

  lemma MoveUsesOne(s: Evcc, r: Evcc, ongoing: bool, kind: Phase)
    requires Counted(s) && Moved(s, r, ongoing) && Bounded(kind)
    ensures (if r.phase == kind then 1 else 0) + Left(r, kind) <= Left(s, kind)
  {}

  lemma TurnUsesOne(s: Evcc, m: Message<Response>, now: real, kind: Phase)
    requires Counted(s) && Settled(s) && s.status == Running && Bounded(kind)
    requires Receive(s, m, now).status == Running
    ensures SentKind(s, m, now, kind) + Left(Receive(s, m, now), kind) <= Left(s, kind)
  {
    TurnMoves(s, m, now);
    MoveUsesOne(s, Receive(s, m, now), m.body.Ongoing(), kind);
  }

  /** Requests of a kind sent over a run, without a request repeated by the turn that ends it. */
  function Sent(s: Evcc, inputs: seq<Input>, kind: Phase): nat
    decreases |inputs|
  {
    if inputs == [] then 0
    else
      var before, last := inputs[..|inputs| - 1], inputs[|inputs| - 1];
      Sent(s, before, kind) + SentKind(Run(s, before), last.message, last.now, kind)
  }

  lemma {:induction false} RunCounts(s: Evcc, inputs: seq<Input>)
    requires Counted(s) && Settled(s)
    ensures Counted(Run(s, inputs)) && Settled(Run(s, inputs))
    ensures s.ctrl.soc <= Run(s, inputs).ctrl.soc
  {
    if inputs != [] {
      var last := |inputs| - 1;
      RunCounts(s, inputs[..last]);
      var t := Run(s, inputs[..last]);
      if t.status == Running {
        ProcessCounts(t, inputs[last].message, inputs[last].now);
        ReceiveSettles(t, inputs[last].message, inputs[last].now);
      }
    }
  }

  lemma {:induction false} SentBounded(s: Evcc, inputs: seq<Input>, kind: Phase)
    requires Counted(s) && Settled(s) && Bounded(kind)
    ensures Run(s, inputs).status == Running ==> Sent(s, inputs, kind) + Left(Run(s, inputs), kind) <= Left(s, kind)
    ensures Sent(s, inputs, kind) <= Left(s, kind)
  {
    if inputs != [] {
      var before, last := inputs[..|inputs| - 1], inputs[|inputs| - 1];
      SentBounded(s, before, kind);
      RunCounts(s, before);
      var t := Run(s, before);
      if t.status == Running && Receive(t, last.message, last.now).status == Running {
        TurnUsesOne(t, last.message, last.now, kind);
        RunCounts(s, inputs);
        LeftIsNat(Run(s, inputs), kind);
      }
    } else {
      LeftIsNat(s, kind);
    }
  }

  lemma LeftIsNat(s: Evcc, kind: Phase)
    requires Counted(s)
    ensures Left(s, kind) >= 0
  {}

  function Cycles(chargeLoopCycle: int): (n: int)
    ensures n >= 1
  {
    if chargeLoopCycle > 1 then chargeLoopCycle else 1
  }

  lemma FreshCounts(mode: EnergyMode, chargeLoopCycle: int)
    ensures var s := Initial(mode, Fresh(chargeLoopCycle));
            Counted(s) && Settled(s) && s.ctrl.cycles == Cycles(chargeLoopCycle)
  {
    var n := Cycles(chargeLoopCycle);
    assert Fresh(chargeLoopCycle).increment == 100.0 / n as real;
    PositiveQuotient(n);
  }

  lemma PositiveQuotient(n: int)
    requires n >= 1
    ensures 100.0 / n as real > 0.0
  {
    var q := 100.0 / n as real;
    assert q * n as real == 100.0;
    assert q <= 0.0 ==> q * n as real <= 0.0;
  }

  /**
   A fresh vehicle configured for c cycles sends, against any answers, at most c - 1
   CurrentDemandReq, 6 PreChargeReq and 4 WeldingDetectionReq.
   */
  lemma {:induction false} FreshVehicleIsBounded(mode: EnergyMode, chargeLoopCycle: int, inputs: seq<Input>)
    ensures var s := Initial(mode, Fresh(chargeLoopCycle));
            && Sent(s, inputs, CurrentDemand) <= Cycles(chargeLoopCycle) - 1
            && Sent(s, inputs, PreCharge) <= 6
            && Sent(s, inputs, WeldingDetection) <= 4
  {
    var s := Initial(mode, Fresh(chargeLoopCycle));
    FreshCounts(mode, chargeLoopCycle);
    SentBounded(s, inputs, CurrentDemand);
    SentBounded(s, inputs, PreCharge);
    SentBounded(s, inputs, WeldingDetection);
  }

  /** A fresh vehicle's state of charge starts at 10, never falls during a run and never exceeds 100. */
  lemma {:induction false} SocOnlyRises(mode: EnergyMode, chargeLoopCycle: int, first: seq<Input>, rest: seq<Input>)
    ensures var s := Initial(mode, Fresh(chargeLoopCycle));
            10 <= Run(s, first).ctrl.soc <= Run(s, first + rest).ctrl.soc <= 100
  {
    var s := Initial(mode, Fresh(chargeLoopCycle));
    FreshCounts(mode, chargeLoopCycle);
    RunCounts(s, first);
    RunSplits(s, first, rest);
    RunCounts(Run(s, first), rest);
  }

  lemma {:induction false} RunSplits(s: Evcc, first: seq<Input>, rest: seq<Input>)
    ensures Run(s, first + rest) == Run(Run(s, first), rest)
    decreases |rest|
  {
    if rest == [] {
      assert first + rest == first;
    } else {
      var last := |rest| - 1;
      assert (first + rest)[..|first + rest| - 1] == first + rest[..last];
      RunSplits(s, first, rest[..last]);
    }
  }

  // ---------------------------------------------------------------------
  // Duration
  // ---------------------------------------------------------------------

  /** An upper bound on the turns a live session still takes, not counting answers that say Ongoing. */
  function Future(s: Evcc): int {
    if s.status != Running then 0
    else match s.phase
      case SessionStop => 1
      case WeldingDetection => 5 - s.ctrl.weldingCycles
      case CurrentDemand => s.ctrl.cycles + 7
      case PowerDelivery => if s.ctrl.completed then 6 else s.ctrl.cycles + 7
      case PreCharge => 12 - s.ctrl.prechargeCycles + s.ctrl.cycles
      case _ => 18 - Rank(s.phase) + s.ctrl.cycles
  }

  lemma MoveMakesProgress(s: Evcc, r: Evcc, ongoing: bool)
    requires Counted(s) && Moved(s, r, ongoing) && s.status == r.status == Running
    ensures Future(r) + (if ongoing then 0 else 1) <= Future(s)
  {}

  lemma TurnMakesProgress(s: Evcc, m: Message<Response>, now: real)
    requires Counted(s) && Settled(s) && s.status == Running
    ensures Future(Receive(s, m, now)) + (if m.body.Ongoing() then 0 else 1) <= Future(s)
  {
    if Receive(s, m, now).status == Running {
      TurnMoves(s, m, now);
      MoveMakesProgress(s, Receive(s, m, now), m.body.Ongoing());
    }
  }

  function OngoingCount(inputs: seq<Input>): nat {
    if inputs == [] then 0
    else OngoingCount(inputs[..|inputs| - 1]) + (if inputs[|inputs| - 1].message.body.Ongoing() then 1 else 0)
  }

  lemma {:induction false} LiveRunsAreShort(s: Evcc, inputs: seq<Input>)
    requires Counted(s) && Settled(s) && s.status == Running
    ensures Run(s, inputs).status == Running ==>
              |inputs| + Future(Run(s, inputs)) <= Future(s) + OngoingCount(inputs)
  {
    if inputs != [] {
      var before, last := inputs[..|inputs| - 1], inputs[|inputs| - 1];
      LiveRunsAreShort(s, before);
      RunCounts(s, before);
      if Run(s, before).status == Running {
        TurnMakesProgress(Run(s, before), last.message, last.now);
      }
    }
  }

  /** A fresh vehicle's session has ended once it got 18 + c answers that were not Ongoing. */
  lemma {:induction false} FreshVehicleEnds(mode: EnergyMode, chargeLoopCycle: int, inputs: seq<Input>)
    requires |inputs| - OngoingCount(inputs) >= 18 + Cycles(chargeLoopCycle)
    ensures Run(Initial(mode, Fresh(chargeLoopCycle)), inputs).status != Running
  {
    var s := Initial(mode, Fresh(chargeLoopCycle));
    FreshCounts(mode, chargeLoopCycle);
    LiveRunsAreShort(s, inputs);
    RunCounts(s, inputs);
  }
}
