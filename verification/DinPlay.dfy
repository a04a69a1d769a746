/**
 A whole DIN SPEC 70121 session played by the two session objects, and what the
 theorems about runs say of it.
 */
module DinPlay {
  import opened Common
  import opened DinMessages
  import opened EvController
  import opened DinSession
  import S = DinSecc
  import E = DinEvcc
  import Safety = DinSeccSafety
  import Bounds = DinEvccBounds
  import Ends = DinSessionEnds

  /** Either party is in a state of its own run, unless it has lost the connection. */
  ghost predicate InRun(j: Joint, se: S.Secc, ev: E.Evcc) {
    && (j.se == se || (j.se == se.Losing() && j.wire == Quiet))
    && (j.ev == ev || (j.ev == ev.Losing() && j.wire == Quiet))
  }

  lemma StepInRun(j: Joint, se: S.Secc, ev: E.Evcc, c: Choice)
    requires InRun(j, se, ev)
    ensures if TooLate(j, c) then InRun(Step(j, c), se, ev)
            else match j.wire
              case ToSecc(m) => InRun(Step(j, c), S.Receive(se, m, c.env), ev)
              case ToEvcc(m) => InRun(Step(j, c), se, E.Receive(ev, m, c.now))
              case Quiet => InRun(Step(j, c), se, ev)
  {}

  lemma {:induction false} StationExtends(s: S.Secc, inputs: seq<S.Input>, i: S.Input)
    ensures S.Run(s, inputs + [i]) == S.Receive(S.Run(s, inputs), i.message, i.env)
  {
    assert (inputs + [i])[..|inputs|] == inputs;
  }

  lemma {:induction false} VehicleExtends(s: E.Evcc, inputs: seq<E.Input>, i: E.Input)
    ensures E.Run(s, inputs + [i]) == E.Receive(E.Run(s, inputs), i.message, i.now)
  {
    assert (inputs + [i])[..|inputs|] == inputs;
  }

  /** Each party of a joint run is in a run of its own, on the messages that reached it in time. */
  lemma {:induction false} PartiesRun(j: Joint, choices: seq<Choice>)
    returns (requests: seq<S.Input>, responses: seq<E.Input>)
    ensures InRun(Run(j, choices), S.Run(j.se, requests), E.Run(j.ev, responses))
    decreases |choices|
  {
    if choices == [] {
      requests, responses := [], [];
    } else {
      var before, c := choices[..|choices| - 1], choices[|choices| - 1];
      requests, responses := PartiesRun(j, before);
      var k := Run(j, before);
      StepInRun(k, S.Run(j.se, requests), E.Run(j.ev, responses), c);
      if !TooLate(k, c) {
        match k.wire {
          case ToSecc(m) =>
            StationExtends(j.se, requests, S.Input(m, c.env));
            requests := requests + [S.Input(m, c.env)];
          case ToEvcc(m) =>
            VehicleExtends(j.ev, responses, E.Input(m, c.now));
            responses := responses + [E.Input(m, c.now)];
          case Quiet =>
        }
      }
    }
  }

  /** The command at position k was earned by all milestones before it, in order. */
  ghost predicate EarnedAt(log: seq<S.Event>, k: nat) {
    exists w :: |w| == Safety.MILESTONES && Safety.Witnesses(log, w) && forall i | 0 <= i < |w| :: w[i] < k
  }

  lemma {:induction false} CommandsAreEarned(
      start: Joint, choices: seq<Choice>, sessionId: string, modes: seq<EnergyMode>, hlc: bool)
    requires start.se == S.Initial(sessionId, modes, hlc)
    ensures var log := Run(start, choices).se.log;
            forall k: nat | k < |log| && log[k].ChargingCommand? && !log[k].precharge :: EarnedAt(log, k)
  {
    var log := Run(start, choices).se.log;
    var inputs, _ := PartiesRun(start, choices);
    forall k: nat | k < |log| && log[k].ChargingCommand? && !log[k].precharge ensures EarnedAt(log, k) {
      var w := Safety.NoCurrentBeforeSafetyChecks(sessionId, modes, hlc, inputs, k);
    }
  }

  /** What the object of the station, the object of the vehicle and the wire between them show at the end. */
  datatype Outcome =
    Outcome(vehicle: E.Status, phase: Phase, success: bool, soc: int, station: S.Status, wire: Wire, log: seq<S.Event>)

  function Observed(j: Joint): Outcome {
    Outcome(j.ev.status, j.ev.phase, j.ev.stopReason == Some(true), j.ev.ctrl.soc, j.se.status, j.wire, j.se.log)
  }

  /** The vehicle has ended in SessionStop with success and the station has stopped, with nothing left on the wire. */
  predicate Complete(o: Outcome) {
    o.vehicle == E.Terminated && o.phase == SessionStop && o.success && o.station == S.Stopped && o.wire == Quiet
  }

  /**
   What a fresh vehicle and a fresh station show after the given turns. Every charging command
   of the station is earned, the state of charge stays within 10 and 100, and a session that is
   long enough has completed if and only if no turn met a fault, a timer that had run out or a
   late message.
   */
  ghost predicate Shows(
      mode: EnergyMode, chargeLoopCycle: int, sessionId: string, modes: seq<EnergyMode>, choices: seq<Choice>,
      o: Outcome)
  {
    var start := Begin(mode, Fresh(chargeLoopCycle), sessionId, modes, false);
    && o == Observed(Run(start, choices))
    && (forall k: nat | k < |o.log| && o.log[k].ChargingCommand? && !o.log[k].precharge :: EarnedAt(o.log, k))
    && 10 <= o.soc <= 100
    && (chargeLoopCycle >= 2 && modes != [] && modes[0] == mode && Ends.IsDc(mode)
        && |choices| >= 2 * chargeLoopCycle + 36 + 2 * Ends.Waits(start, choices) ==>
          o.vehicle != E.Running && (Complete(o) <==> Ends.AllFine(start, choices)))
  }

  /** Plays a fresh vehicle against a fresh station. */
  method PlaySession(
      mode: EnergyMode, chargeLoopCycle: int, sessionId: string, modes: seq<EnergyMode>, choices: seq<Choice>)
    returns (o: Outcome)
    ensures Shows(mode, chargeLoopCycle, sessionId, modes, choices, o)
  {
    var controller := new SimController(chargeLoopCycle);
    var vehicle := new E.EvccSession(mode, controller);
    var station := new S.SeccSession(sessionId, modes, false);
    var wire := ToSecc(Message("00", SessionSetupReq));
    ghost var start := Begin(mode, Fresh(chargeLoopCycle), sessionId, modes, false);
    for i := 0 to |choices|
      invariant vehicle.ev == controller
      invariant Joint(vehicle.Model(), station.Model(), wire) == Run(start, choices[..i])
      modifies vehicle, controller, station
    {
      var c := choices[i];
      assert choices[..i + 1][..i] == choices[..i];
      var tooLate := (wire.ToSecc? && c.waited > S.SEQUENCE_TIMEOUT) || (wire.ToEvcc? && c.waited > vehicle.timeout);
      if tooLate {
        vehicle.EndRead();
        station.EndRead();
        wire := Quiet;
        continue;
      }
      match wire {
        case ToSecc(m) =>
          var answer := station.Turn(m, c.env);
          wire := if answer.Some? then ToEvcc(answer.value) else Quiet;
        case ToEvcc(m) =>
          var request := vehicle.Turn(m, c.now);
          wire := if request.Some? then ToSecc(request.value) else Quiet;
        case Quiet =>
      }
    }
    assert choices[..|choices|] == choices;
    var success := vehicle.stopReason == Some(true);
    o := Outcome(vehicle.status, vehicle.phase, success, controller.soc, station.status, wire, station.log);
    SessionIsSound(mode, chargeLoopCycle, sessionId, modes, choices);
  }

  /** The theorems that the played session concludes. */
  lemma {:induction false} SessionIsSound(
      mode: EnergyMode, chargeLoopCycle: int, sessionId: string, modes: seq<EnergyMode>, choices: seq<Choice>)
    ensures var start := Begin(mode, Fresh(chargeLoopCycle), sessionId, modes, false);
            Shows(mode, chargeLoopCycle, sessionId, modes, choices, Observed(Run(start, choices)))
  {
    var start := Begin(mode, Fresh(chargeLoopCycle), sessionId, modes, false);
    CommandsAreEarned(start, choices, sessionId, modes, false);
    var _, inputs := PartiesRun(start, choices);
    Bounds.SocOnlyRises(mode, chargeLoopCycle, inputs, []);
    if chargeLoopCycle >= 2 && modes != [] && modes[0] == mode && Ends.IsDc(mode) {
      Ends.SessionCompletesExactly(mode, chargeLoopCycle, sessionId, modes, false, choices);
    }
  }
}
