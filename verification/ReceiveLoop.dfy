/**
 The receive loop of a communication session: it waits for a message, processes
 it, sends the next one and goes on, until something ends the session.
 */
module ReceiveLoop {
  import opened Common

  datatype NextState = Another | Stay | Terminate | Pause

  datatype StopNotification = StopNotification(successful: bool)

  /** How processing a message, sending the next one and entering the next state go. */
  datatype Turn = Turn(
    processed: bool,                  // false: an exception while processing
    prepared: bool,                   // a next message is there to be sent
    sent: bool,                       // false: an exception while sending
    next: NextState,
    reason: Option<StopNotification>, // the stop reason the state left behind
    entered: bool)                    // false: an exception while entering the next state

  datatype Event = Closed | TimedOut | Reset | Received(turn: Turn)

  datatype Loop = Loop(finished: bool, sends: nat, stopped: nat, queue: seq<StopNotification>)

  const Started: Loop := Loop(false, 0, 0, [])

  /** The writer is closed and the notification is queued. */
  function Finish(l: Loop, n: StopNotification): Loop {
    l.(finished := true, stopped := l.stopped + 1, queue := l.queue + [n])
  }

  /** A state that terminates without a stop reason raises an error, which is handled like any other. */
  function AfterTurn(l: Loop, t: Turn): Loop {
    var failed := StopNotification(false);
    if !t.processed || (!t.prepared && !t.next.Terminate?) then Finish(l, failed)
    else if t.prepared && !t.sent then Finish(l, failed)
    else
      var sent := if t.prepared then l.(sends := l.sends + 1) else l;
      if t.next.Terminate? || t.next.Pause? then
        Finish(sent, if t.reason.Some? then t.reason.value else failed)
      else if t.next.Another? && !t.entered then Finish(sent, failed)
      else sent
  }

  function Next(l: Loop, e: Event): Loop {
    if l.finished then l
    else
      match e
      case Closed => Finish(l, StopNotification(false))
      case TimedOut => Finish(l, StopNotification(false))
      case Reset => Finish(l, StopNotification(false))
      case Received(t) => AfterTurn(l, t)
  }

  function Run(events: seq<Event>): Loop {
    if events == [] then Started else Next(Run(events[..|events| - 1]), events[|events| - 1])
  }

  /** A message that leaves the loop going: it was processed, sent on, and did not ask to end. */
  predicate GoesOn(e: Event) {
    && e.Received? && e.turn.processed && e.turn.prepared && e.turn.sent
    && !e.turn.next.Terminate? && !e.turn.next.Pause? && (e.turn.next.Another? ==> e.turn.entered)
  }

  /** A message that ends the loop in success. */
  predicate EndsWell(e: Event) {
    && e.Received? && e.turn.processed && (e.turn.prepared ==> e.turn.sent)
    && (e.turn.next.Terminate? || (e.turn.next.Pause? && e.turn.prepared))
    && e.turn.reason == Some(StopNotification(true))
  }

  predicate Sends(t: Turn) {
    t.processed && t.prepared && t.sent
  }

  lemma {:induction false} RunGoesOn(events: seq<Event>)
    requires forall i | 0 <= i < |events| :: GoesOn(events[i])
    ensures Run(events) == Loop(false, |events|, 0, [])
  {
    if events != [] {
      RunGoesOn(events[..|events| - 1]);
    }
  }

  lemma {:induction false} FinishedStays(events: seq<Event>, k: nat)
    requires k <= |events| && Run(events[..k]).finished
    ensures Run(events) == Run(events[..k])
  {
    if k < |events| {
      var init := events[..|events| - 1];
      assert init[..k] == events[..k];
      FinishedStays(init, k);
    } else {
      assert events[..k] == events;
    }
  }

  /**
   The loop finishes with the first event that does not let it go on, and then
   exactly one notification is queued, which reports success exactly when that
   event was a regular end; a loop that goes on has queued none.
   */
  lemma {:induction false} OneNotification(events: seq<Event>, k: nat)
    requires k <= |events| && forall i | 0 <= i < k :: GoesOn(events[i])
    requires k < |events| ==> !GoesOn(events[k])
    ensures Run(events).finished <==> k < |events|
    ensures Run(events).queue == if k < |events| then [StopNotification(EndsWell(events[k]))] else []
    ensures Run(events).stopped == |Run(events).queue|
    ensures Run(events).sends ==
            k + if k < |events| && events[k].Received? && Sends(events[k].turn) then 1 else 0
  {
    RunGoesOn(events[..k]);
    if k < |events| {
      assert events[..k + 1][..k] == events[..k];
      var l := Next(Run(events[..k]), events[k]);
      assert Run(events[..k + 1]) == l && |l.queue| == 1;
      assert l.queue[0].successful == EndsWell(events[k]);
      FinishedStays(events, k + 1);
    } else {
      assert events[..k] == events;
    }
  }

  class CommunicationSession {
    var sessionHandlerQueue: seq<StopNotification>

    constructor ()
      ensures sessionHandlerQueue == []
    {
      sessionHandlerQueue := [];
    }

    method Notify(n: StopNotification)
      modifies this
      ensures sessionHandlerQueue == old(sessionHandlerQueue) + [n]
    {
      sessionHandlerQueue := sessionHandlerQueue + [n];
    }

    /** Runs until an event ends the loop, or as far as the events go. */
    method RcvLoop(events: seq<Event>) returns (finished: bool)
      modifies this
      ensures finished == Run(events).finished
      ensures sessionHandlerQueue == old(sessionHandlerQueue) + Run(events).queue
    {
      for i := 0 to |events|
        invariant sessionHandlerQueue == old(sessionHandlerQueue)
        invariant !Run(events[..i]).finished && Run(events[..i]).queue == []
      {
        var e := events[i];
        assert events[..i + 1][..i] == events[..i];
        if !e.Received? {
          Notify(StopNotification(false));
          FinishedStays(events, i + 1);
          return true;
        }
        var t := e.turn;
        var ok := t.processed && (t.prepared || t.next.Terminate?) && (t.prepared ==> t.sent);
        if ok && (t.next.Terminate? || t.next.Pause?) && t.reason.Some? {
          Notify(t.reason.value);
          FinishedStays(events, i + 1);
          return true;
        }
        if !ok || t.next.Terminate? || t.next.Pause? || (t.next.Another? && !t.entered) {
          Notify(StopNotification(false));
          FinishedStays(events, i + 1);
          return true;
        }
      }
      assert events[..|events|] == events;
      return false;
    }
  }
}
