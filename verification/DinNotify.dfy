/**
 What the receive loop of a DIN SPEC 70121 vehicle tells the session handler, which
 starts discovery again after every end that is not reported as a success.
 */
module DinNotify {
  import opened Common
  import opened DinMessages
  import opened EvController
  import opened DinSession
  import opened DinSessionEnds
  import S = DinSecc
  import E = DinEvcc
  import Bounds = DinEvccBounds
  import L = ReceiveLoop

  /** A response as the receive loop sees it: processed, sent on, and followed by another state or an end. */
  function TurnOf(ev: E.Evcc, m: Message<Response>, now: real): L.Turn {
    var p := E.Process(ev, m, now);
    L.Turn(
      p.status == E.Running,
      p.pending.Some?,
      true,
      match p.next { case Stay => L.Stay case Goto(_) => L.Another case Terminate => L.Terminate },
      if p.stopReason.Some? then Some(L.StopNotification(p.stopReason.value)) else None,
      true)
  }

  /** What a turn of the joint session is for the loop of the vehicle, if anything. */
  function EventOf(j: Joint, c: Choice): seq<L.Event> {
    if j.ev.status != E.Running then []
    else if TooLate(j, c) then [if j.wire.ToEvcc? then L.TimedOut else L.Closed]
    else if j.wire.ToEvcc? then [L.Received(TurnOf(j.ev, j.wire.response, c.now))]
    else []
  }

  function Events(j: Joint, choices: seq<Choice>): seq<L.Event>
    decreases |choices|
  {
    if choices == [] then []
    else
      var before := choices[..|choices| - 1];
      Events(j, before) + EventOf(Run(j, before), choices[|choices| - 1])
  }

  predicate Succeeded(ev: E.Evcc) {
    ev.status == E.Terminated && ev.stopReason == Some(true)
  }

  /** The loop mirrors the vehicle: it goes on with it, and has queued one notification when it has ended. */
  ghost predicate Mirrors(l: L.Loop, ev: E.Evcc) {
    && (ev.status == E.Running ==> ev.next == Stay && ev.stopReason == None)
    && (ev.stopReason == Some(true) ==> ev.phase == SessionStop)
    && (l.finished <==> ev.status != E.Running)
    && l.queue == if ev.status == E.Running then [] else [L.StopNotification(Succeeded(ev))]
  }

  /** What processing leaves of the stop reason. */
  lemma ReasonOf(ev: E.Evcc, m: Message<Response>, now: real)
    requires ev.status == E.Running && ev.next == Stay && ev.stopReason == None
    ensures var p := E.Process(ev, m, now);
            && (p.stopReason == Some(true) <==> E.Accepts(ev, m) && ev.phase == SessionStop)
            && (p.status == E.Running ==> (p.stopReason.Some? <==> p.next == Terminate))
            && (p.next == Terminate ==> p.phase == ev.phase)
            && p.status != E.Terminated && p.status != E.Lost
            && (p.status == E.Crashed ==> p.stopReason == None)
  {
    if E.Accepts(ev, m) {
      if Bounds.Rank(ev.phase) <= 5 {
        EarlyReason(ev, m, now);
      } else {
        LateReason(ev, m, now);
      }
    }
  }

  lemma EarlyReason(ev: E.Evcc, m: Message<Response>, now: real)
    requires ev.status == E.Running && ev.next == Stay && ev.stopReason == None
    requires E.Accepts(ev, m) && Bounds.Rank(ev.phase) <= 5
    ensures var p := E.Process(ev, m, now);
            && p.stopReason != Some(true) && p.phase == ev.phase
            && p.status != E.Terminated && p.status != E.Lost
            && (if p.status == E.Running then p.stopReason.Some? <==> p.next == Terminate else p.stopReason == None)
            && (p.status == E.Crashed ==> p.next == Stay)
  {}

  lemma LateReason(ev: E.Evcc, m: Message<Response>, now: real)
    requires ev.status == E.Running && ev.next == Stay && ev.stopReason == None
    requires E.Accepts(ev, m) && Bounds.Rank(ev.phase) > 5
    ensures var p := E.Process(ev, m, now);
            && p.status == E.Running && p.phase == ev.phase
            && (p.stopReason == Some(true) <==> ev.phase == SessionStop)
            && (p.stopReason.Some? <==> p.next == Terminate)
  {}

  lemma ReceivedMirrors(l: L.Loop, ev: E.Evcc, m: Message<Response>, now: real)
    requires Mirrors(l, ev) && ev.status == E.Running
    ensures Mirrors(L.Next(l, L.Received(TurnOf(ev, m, now))), E.Receive(ev, m, now))
    ensures Succeeded(E.Receive(ev, m, now)) <==> E.Accepts(ev, m) && ev.phase == SessionStop
  {
    ReasonOf(ev, m, now);
  }

  lemma StepMirrors(l: L.Loop, j: Joint, c: Choice)
    requires Mirrors(l, j.ev)
    ensures var events := EventOf(j, c);
            Mirrors(if events == [] then l else L.Next(l, events[0]), Step(j, c).ev)
  {
    if j.ev.status == E.Running && !TooLate(j, c) && j.wire.ToEvcc? {
      ReceivedMirrors(l, j.ev, j.wire.response, c.now);
    }
  }

  lemma {:induction false} LoopExtends(events: seq<L.Event>, e: L.Event)
    ensures L.Run(events + [e]) == L.Next(L.Run(events), e)
  {
    assert (events + [e])[..|events|] == events;
  }

  /** In every joint run the vehicle's loop mirrors the vehicle. */
  lemma {:induction false} LoopMirrorsVehicle(j: Joint, choices: seq<Choice>)
    requires Mirrors(L.Started, j.ev)
    ensures Mirrors(L.Run(Events(j, choices)), Run(j, choices).ev)
    decreases |choices|
  {
    if choices != [] {
      var before, c := choices[..|choices| - 1], choices[|choices| - 1];
      LoopMirrorsVehicle(j, before);
      var k := Run(j, before);
      StepMirrors(L.Run(Events(j, before)), k, c);
      var events := EventOf(k, c);
      if events == [] {
        assert Events(j, before) + events == Events(j, before);
      } else {
        LoopExtends(Events(j, before), events[0]);
        assert events == [events[0]];
      }
    }
  }

  /** A turn ends in success exactly when a positive answer reaches SessionStop in time. */
  lemma SuccessExactly(j: Joint, c: Choice, l: L.Loop)
    requires Mirrors(l, j.ev) && j.ev.status == E.Running
    ensures Succeeded(Step(j, c).ev) <==>
            j.wire.ToEvcc? && !TooLate(j, c) && j.ev.phase == SessionStop && E.Accepts(j.ev, j.wire.response)
  {
    if j.wire.ToEvcc? && !TooLate(j, c) {
      ReceivedMirrors(l, j.ev, j.wire.response, c.now);
    }
  }

  /**
   In every run of a fresh vehicle with at least two cycles against a station that offers
   its DC mode first, the vehicle's loop has queued nothing while the vehicle lives and
   exactly one notification once it has ended; and that reports success, so that discovery
   is not started again, if and only if the session has completed.
   */
  lemma {:induction false} SuccessIsReportedExactly(
      mode: EnergyMode, chargeLoopCycle: int, sessionId: string, modes: seq<EnergyMode>, hlc: bool,
      choices: seq<Choice>)
    requires chargeLoopCycle >= 2 && modes != [] && modes[0] == mode && IsDc(mode)
    ensures var start := Begin(mode, Fresh(chargeLoopCycle), sessionId, modes, hlc);
            var l, j := L.Run(Events(start, choices)), Run(start, choices);
            && (l.finished <==> j.ev.status != E.Running)
            && l.queue == if j.ev.status == E.Running then [] else [L.StopNotification(Completed(j))]
  {
    var start := Begin(mode, Fresh(chargeLoopCycle), sessionId, modes, hlc);
    BeginIsRegular(mode, chargeLoopCycle, sessionId, modes, hlc);
    LoopMirrorsVehicle(start, choices);
    RunDecides(start, choices);
  }
}
