/**
 SECC discovery on the EV side: requests are repeated on a timeout, grouped in
 cycles of fifty, and the whole setup is restarted after a failure if so
 configured (section 7.10.1 of ISO 15118-2).
 */
module SdpDiscovery {

  const MAX_REQUESTS: nat := 50

  /** maxRestarts is 0 where the number of automatic restarts is not limited. */
  datatype Config = Config(cycles: nat, autoRestart: bool, maxRestarts: nat, useTls: bool, enforceTls: bool)

  /** What arrives while a request waits for its answer. */
  datatype Packet =
    | Malformed              // no V2GTP message
    | InvalidSdpResponse     // wrong length
    | UnknownSecurity        // a security or transport byte outside the enumeration
    | SdpResponse(tls: bool)
    | Wireless
    | OtherPayload

  datatype Reply = Timeout | Datagram(packet: Packet)

  datatype Notification = Udp(reply: Reply) | Stop(successful: bool)

  /** Ended: the session has queued its notification and was not yet removed. */
  datatype Session = NoSession | Running(tls: bool) | Ended

  datatype Handler = Handler(
    config: Config,
    retries: nat,
    cycles: nat,
    restarts: nat,
    waiting: bool,             // a request has been sent and its answer is awaited
    queue: seq<Notification>,
    session: Session,
    stopped: bool,             // the queue loop has ended
    sends: nat)

  /** The handler, and whether an SDPFailedError was raised. */
  datatype Outcome = Outcome(h: Handler, failed: bool)

  function RestartSdp(h: Handler, newCycle: bool): Outcome {
    if newCycle && h.cycles == 0 then Outcome(h, true)
    else
      var begun := if newCycle then h.(cycles := h.cycles - 1, retries := MAX_REQUESTS) else h;
      if begun.retries > 0 then
        Outcome(begun.(retries := begun.retries - 1, waiting := true, sends := h.sends + 1), false)
      else Outcome(begun.(retries := MAX_REQUESTS), true)
  }

  /** Without a restart nothing more happens; a restart that fails at once ends the queue loop. */
  function HandleSdpFailed(h: Handler): Handler {
    if !h.config.autoRestart then h
    else if h.config.maxRestarts > 0 && h.restarts >= h.config.maxRestarts then h
    else
      var again := RestartSdp(h.(restarts := h.restarts + 1, cycles := h.config.cycles, retries := MAX_REQUESTS), true);
      if again.failed then again.h.(stopped := true) else again.h
  }

  function Retry(h: Handler, newCycle: bool): Handler {
    var r := RestartSdp(h, newCycle);
    if r.failed then HandleSdpFailed(r.h) else r.h
  }

  predicate SecurityMismatch(c: Config, tls: bool) {
    (!tls && c.enforceTls) || (tls && !c.useTls)
  }

  /**
   Opened: the connection is made and the first message of the session goes out. Refused: the
   connection or the request for it cannot be made. Raised: any other error while sending it.
   */
  datatype Opening = Opened | Refused | Raised

  function ProcessPacket(h: Handler, p: Packet, opening: Opening): Handler {
    match p
    case Malformed => h
    case InvalidSdpResponse => Retry(h, true)
    case UnknownSecurity => h.(stopped := true)
    case SdpResponse(tls) =>
      if SecurityMismatch(h.config, tls) then h
      else
        (match opening
         case Opened => h.(session := Running(tls))
         case Refused => h
         case Raised => h.(stopped := true))
    case Wireless => h.(stopped := true)
    case OtherPayload => Retry(h, true)
  }

  /** One turn of the queue loop; a stop for a session that is not there would raise an error. */
  function ProcessNotification(h: Handler, n: Notification, opening: Opening): Handler {
    match n
    case Udp(Timeout) => Retry(h, false)
    case Udp(Datagram(p)) => ProcessPacket(h, p, opening)
    case Stop(successful) =>
      if !h.session.Ended? then h.(stopped := true)
      else
        var removed := h.(session := NoSession);
        if successful then removed.(restarts := 0, stopped := true) else Retry(removed, true)
  }

  /** What the surroundings decide next. */
  datatype Choice = Answer(reply: Reply) | Loop(opening: Opening) | EndSession(successful: bool)

  function Step(h: Handler, c: Choice): Handler {
    match c
    case Answer(r) => if h.waiting then h.(waiting := false, queue := h.queue + [Udp(r)]) else h
    case Loop(opening) =>
      if h.stopped || h.queue == [] then h
      else ProcessNotification(h.(queue := h.queue[1..]), h.queue[0], opening)
    case EndSession(s) => if h.session.Running? then h.(session := Ended, queue := h.queue + [Stop(s)]) else h
  }

  function Started(c: Config): Handler {
    Handler(c, MAX_REQUESTS, c.cycles, 0, false, [], NoSession, false, 0)
  }

  /** The first request is sent beside the queue loop, and its failure ends both. */
  function Begin(c: Config): Handler {
    var r := RestartSdp(Started(c), true);
    if r.failed then r.h.(stopped := true) else r.h
  }

  function Run(c: Config, choices: seq<Choice>): Handler {
    if choices == [] then Begin(c)
    else Step(Run(c, choices[..|choices| - 1]), choices[|choices| - 1])
  }

  // ---------------------------------------------------------------------
  // At most one thing is under way
  // ---------------------------------------------------------------------

  predicate Pending(h: Handler) {
    h.waiting || h.queue != []
  }

  /** Neither an answer nor a session is to be expected any more. */
  predicate Finished(h: Handler) {
    !Pending(h) && !h.session.Running?
  }

  /** Exactly one: an answer or notification is pending, a session is running, or all is over. */
  predicate Exclusive(h: Handler) {
    && (|h.queue| + (if h.waiting then 1 else 0)
        + (if h.session.Running? then 1 else 0) + (if Finished(h) then 1 else 0)) == 1
    && (h.session.Ended? <==> |h.queue| == 1 && h.queue[0].Stop?)
    && (h.stopped ==> Finished(h))
  }

  lemma StepIsExclusive(h: Handler, c: Choice)
    requires Exclusive(h)
    ensures Exclusive(Step(h, c)) && Step(h, c).config == h.config
    ensures Finished(h) ==> Step(h, c) == h
  {
    if c.Loop? && !h.stopped && h.queue != [] {
      assert h.queue[1..] == [];
    }
  }

  /**
   In every run exactly one of pending, running and finished holds, and what is
   finished stays so. A stop notification always finds its session.
   */
  lemma {:induction false} RunIsExclusive(c: Config, choices: seq<Choice>)
    ensures Exclusive(Run(c, choices)) && Run(c, choices).config == c
    ensures var h := Run(c, choices); h.queue != [] && h.queue[0].Stop? ==> h.session.Ended?
  {
    if choices != [] {
      RunIsExclusive(c, choices[..|choices| - 1]);
      StepIsExclusive(Run(c, choices[..|choices| - 1]), choices[|choices| - 1]);
    }
  }

  // ---------------------------------------------------------------------
  // How many requests are sent
  // ---------------------------------------------------------------------

  /** How often the configuration allows the setup to be restarted, where that is limited. */
  function Restarts(c: Config): nat {
    if c.autoRestart then c.maxRestarts else 0
  }

  predicate Unlimited(c: Config) {
    c.autoRestart && c.maxRestarts == 0 && c.cycles > 0
  }

  function Limit(c: Config): nat {
    50 * c.cycles * (Restarts(c) + 1)
  }

  /** The requests that may still follow. */
  function Left(h: Handler): int {
    h.retries + MAX_REQUESTS * h.cycles + MAX_REQUESTS * h.config.cycles * (Restarts(h.config) - h.restarts)
  }

  ghost predicate Bounded(h: Handler) {
    && h.sends <= Limit(h.config)
    && (!Finished(h) ==> h.restarts <= Restarts(h.config) && h.sends + Left(h) <= Limit(h.config))
  }

  lemma RestartSpends(c: Config, restarts: nat)
    requires restarts < Restarts(c)
    ensures MAX_REQUESTS * c.cycles * (Restarts(c) - restarts) ==
            MAX_REQUESTS * c.cycles + MAX_REQUESTS * c.cycles * (Restarts(c) - (restarts + 1))
  {
    var per := MAX_REQUESTS * c.cycles;
    assert per * (Restarts(c) - restarts) == per + per * (Restarts(c) - (restarts + 1));
  }

  lemma LeftIsNonnegative(h: Handler)
    requires h.restarts <= Restarts(h.config)
    ensures MAX_REQUESTS * h.config.cycles * (Restarts(h.config) - h.restarts) >= 0
  {
    var per, n := MAX_REQUESTS * h.config.cycles, Restarts(h.config) - h.restarts;
    assert per >= 0 && n >= 0;
    assert per * n >= 0;
  }

  lemma FailureIsBounded(h: Handler)
    requires !Unlimited(h.config) && Exclusive(h) && Finished(h) && !h.stopped && h.session.NoSession?
    requires h.restarts <= Restarts(h.config)
    requires h.sends + MAX_REQUESTS * h.config.cycles * (Restarts(h.config) - h.restarts) <= Limit(h.config)
    ensures Bounded(HandleSdpFailed(h))
  {
    LeftIsNonnegative(h);
    if h.config.autoRestart && h.restarts < h.config.maxRestarts {
      RestartSpends(h.config, h.restarts);
      var next := HandleSdpFailed(h);
      if h.config.cycles > 0 {
        assert next.sends + Left(next) ==
               h.sends + MAX_REQUESTS * h.config.cycles * (Restarts(h.config) - h.restarts);
        LeftIsNonnegative(next);
      }
    } else if h.config.autoRestart && h.config.maxRestarts == 0 {
      assert h.config.cycles == 0;
    }
  }

  lemma RetryIsBounded(h: Handler, newCycle: bool)
    requires !Unlimited(h.config) && h.session.NoSession? && !h.waiting && h.queue == [] && !h.stopped
    requires h.restarts <= Restarts(h.config) && h.sends + Left(h) <= Limit(h.config)
    ensures Bounded(Retry(h, newCycle))
  {
    LeftIsNonnegative(h);
    var r := RestartSdp(h, newCycle);
    if r.failed {
      FailureIsBounded(r.h);
    } else {
      assert r.h.sends + Left(r.h) <= h.sends + Left(h);
      LeftIsNonnegative(r.h);
    }
  }

  lemma StepIsBounded(h: Handler, c: Choice)
    requires Exclusive(h) && Bounded(h) && !Unlimited(h.config)
    ensures Bounded(Step(h, c))
  {
    LeftIsNat(h);
    if c.Loop? && !h.stopped && h.queue != [] {
      var n := h.queue[0];
      var popped := h.(queue := h.queue[1..]);
      assert popped.queue == [];
      match n {
        case Udp(Timeout) => RetryIsBounded(popped, false);
        case Udp(Datagram(p)) =>
          if p.InvalidSdpResponse? || p.OtherPayload? {
            RetryIsBounded(popped, true);
          }
        case Stop(successful) =>
          if !successful {
            RetryIsBounded(popped.(session := NoSession), true);
          }
      }
    }
  }

  lemma LeftIsNat(h: Handler)
    ensures h.restarts <= Restarts(h.config) ==> Left(h) >= 0
  {
    if h.restarts <= Restarts(h.config) {
      LeftIsNonnegative(h);
    }
  }

  /** At most 50 requests for each cycle, and for each cycle again after each permitted restart. */
  lemma {:induction false} RequestsAreBounded(c: Config, choices: seq<Choice>)
    requires !Unlimited(c)
    ensures Bounded(Run(c, choices)) && Run(c, choices).sends <= Limit(c)
  {
    RunIsExclusive(c, choices);
    if choices != [] {
      var init := choices[..|choices| - 1];
      RunIsExclusive(c, init);
      RequestsAreBounded(c, init);
      StepIsBounded(Run(c, init), choices[|choices| - 1]);
    } else {
      RetryFirst(c);
    }
  }

  lemma RetryFirst(c: Config)
    ensures Bounded(Begin(c))
    ensures c.cycles > 0 ==> Begin(c).waiting && Begin(c).sends + Left(Begin(c)) == Limit(c)
  {
    var per, n := MAX_REQUESTS * c.cycles, Restarts(c);
    assert per * (n + 1) == per + per * n;
    assert per * n >= 0;
  }

  /** One more request can always be provoked while some are left. */
  lemma OneMore(h: Handler) returns (a: Choice, b: Choice)
    requires Exclusive(h) && h.waiting && h.retries < MAX_REQUESTS && h.config.cycles > 0
    requires Unlimited(h.config) || (h.restarts <= Restarts(h.config) && Left(h) > 0)
    ensures var next := Step(Step(h, a), b);
            && next.waiting && next.sends == h.sends + 1 && next.config == h.config && next.retries < MAX_REQUESTS
            && (!Unlimited(h.config) ==> next.restarts <= Restarts(h.config) && Left(next) == Left(h) - 1)
  {
    var timeout := h.retries > 0 || h.cycles == 0 || Unlimited(h.config);
    a := Answer(if timeout then Timeout else Datagram(OtherPayload));
    b := Loop(Opened);
    var answered := Step(h, a);
    var popped := answered.(queue := []);
    assert answered.queue[1..] == [];
    assert Step(answered, b) == Retry(popped, !timeout);
    if !Unlimited(h.config) && h.retries == 0 && h.cycles == 0 {
      assert h.restarts == Restarts(h.config) ==> Left(h) == 0;
      RestartSpends(h.config, h.restarts);
    }
  }

  lemma {:induction false} RunTwo(c: Config, choices: seq<Choice>, a: Choice, b: Choice)
    ensures Run(c, choices + [a, b]) == Step(Step(Run(c, choices), a), b)
  {
    assert (choices + [a, b])[..|choices| + 1] == choices + [a];
    assert (choices + [a])[..|choices|] == choices;
  }

  lemma {:induction false} Provoke(c: Config, n: nat) returns (choices: seq<Choice>)
    requires c.cycles > 0 && n > 0 && (Unlimited(c) || n <= Limit(c))
    ensures var h := Run(c, choices);
            && h.waiting && h.sends == n && h.retries < MAX_REQUESTS
            && (!Unlimited(c) ==> h.restarts <= Restarts(c) && h.sends + Left(h) == Limit(c))
  {
    RetryFirst(c);
    if n == 1 {
      choices := [];
    } else {
      choices := Provoke(c, n - 1);
      RunIsExclusive(c, choices);
      var a, b := OneMore(Run(c, choices));
      RunTwo(c, choices, a, b);
      choices := choices + [a, b];
    }
  }

  ghost predicate CanSend(c: Config, n: nat) {
    exists choices :: Run(c, choices).sends >= n
  }

  /**
   Over the whole life of the handler n requests can be sent if and only if n is
   at most 50 times the cycles times one more than the restarts, or restarts are
   unlimited and there is a cycle to start with.
   */
  lemma RequestsExactly(c: Config, n: nat)
    ensures CanSend(c, n) <==> Unlimited(c) || n <= Limit(c)
  {
    if Unlimited(c) || n <= Limit(c) {
      if n == 0 {
        assert Run(c, []).sends >= n;
      } else {
        var choices := Provoke(c, n);
        assert Run(c, choices).sends >= n;
      }
    }
    if !Unlimited(c) && CanSend(c, n) {
      var choices :| Run(c, choices).sends >= n;
      RequestsAreBounded(c, choices);
    }
  }

  // ---------------------------------------------------------------------
  // When a session begins, and when a request is sent
  // ---------------------------------------------------------------------

  /** The next turn of the loop takes up this notification. */
  predicate TakesUp(h: Handler, c: Choice, n: Notification) {
    c.Loop? && !h.stopped && h.queue != [] && h.queue[0] == n
  }

  /**
   In every run a step begins a session if and only if the loop takes up an SDP response, the
   connection opens, TLS is supported where the station asks for it, and the station asks for it
   where it is enforced. The session is secured exactly as the station asked for.
   */
  lemma {:induction false} SessionBeginsExactly(config: Config, choices: seq<Choice>, c: Choice, tls: bool)
    ensures var h, next := Run(config, choices), Run(config, choices + [c]);
            !h.session.Running? && next.session == Running(tls) <==>
            && TakesUp(h, c, Udp(Datagram(SdpResponse(tls)))) && c.opening.Opened?
            && (tls ==> config.useTls) && (!tls ==> !config.enforceTls)
  {
    var h := Run(config, choices);
    assert (choices + [c])[..|choices|] == choices;
    RunIsExclusive(config, choices);
    if c.Loop? && !h.stopped && h.queue != [] {
      assert h.queue[1..] == [];
    }
  }

  /** A running session ends by its own decision alone, and keeps its security until then. */
  lemma {:induction false} SessionEndsExactly(config: Config, choices: seq<Choice>, c: Choice)
    requires Run(config, choices).session.Running?
    ensures Run(config, choices + [c]).session ==
            if c.EndSession? then Ended else Run(config, choices).session
  {
    assert (choices + [c])[..|choices|] == choices;
    RunIsExclusive(config, choices);
  }

  /** In no run is a session unsecured where TLS is enforced, or secured where TLS is not supported. */
  lemma {:induction false} SecurityIsKept(config: Config, choices: seq<Choice>)
    ensures var session := Run(config, choices).session;
            && (session == Running(false) ==> !config.enforceTls)
            && (session == Running(true) ==> config.useTls)
  {
    if choices != [] {
      var init, c := choices[..|choices| - 1], choices[|choices| - 1];
      assert choices == init + [c];
      SecurityIsKept(config, init);
      SessionBeginsExactly(config, init, c, true);
      SessionBeginsExactly(config, init, c, false);
      if Run(config, init).session.Running? {
        SessionEndsExactly(config, init, c);
      }
    }
  }

  /** The configuration allows the whole setup to begin again, and it has a first request. */
  predicate MayRestart(h: Handler) {
    && h.config.autoRestart && h.config.cycles > 0
    && (h.config.maxRestarts == 0 || h.restarts < h.config.maxRestarts)
  }

  /** The loop takes up a failure after which a new cycle is to begin. */
  predicate AsksForCycle(h: Handler, c: Choice) {
    || TakesUp(h, c, Udp(Datagram(InvalidSdpResponse)))
    || TakesUp(h, c, Udp(Datagram(OtherPayload)))
    || TakesUp(h, c, Stop(false))
  }

  /**
   In every run a step sends a request, and one only, if and only if the loop takes up a timeout
   while the cycle has a request left, or a failure while there is a cycle left, or either of
   them while the setup may begin again.
   */
  lemma {:induction false} RequestSentExactly(config: Config, choices: seq<Choice>, c: Choice)
    ensures var h, next := Run(config, choices), Run(config, choices + [c]);
            && h.sends <= next.sends <= h.sends + 1
            && (next.sends > h.sends <==>
                || (TakesUp(h, c, Udp(Timeout)) && (h.retries > 0 || MayRestart(h)))
                || (AsksForCycle(h, c) && (h.cycles > 0 || MayRestart(h))))
            && (next.sends > h.sends ==> next.waiting)
  {
    var h := Run(config, choices);
    assert (choices + [c])[..|choices|] == choices;
    RunIsExclusive(config, choices);
    if c.Loop? && !h.stopped && h.queue != [] {
      assert h.queue[1..] == [];
    }
  }

  lemma {:induction false} WithoutCycleStopped(config: Config, choices: seq<Choice>)
    requires config.cycles == 0
    ensures Run(config, choices).stopped
  {
    if choices != [] {
      var init := choices[..|choices| - 1];
      WithoutCycleStopped(config, init);
      RunIsExclusive(config, init);
      StepIsExclusive(Run(config, init), choices[|choices| - 1]);
    }
  }

  /**
   In every run a step ends the loop if and only if the loop takes up a response that cannot be
   read or asks for a wireless session, a response in order whose session raises an error, or the
   success of a session. A failed restart, which ends the loop too, cannot come about.
   */
  lemma {:induction false} LoopEndsExactly(config: Config, choices: seq<Choice>, c: Choice)
    ensures var h, next := Run(config, choices), Run(config, choices + [c]);
            !h.stopped && next.stopped <==>
            || TakesUp(h, c, Udp(Datagram(UnknownSecurity)))
            || TakesUp(h, c, Udp(Datagram(Wireless)))
            || (TakesUp(h, c, Udp(Datagram(SdpResponse(true)))) && c.opening.Raised? && config.useTls)
            || (TakesUp(h, c, Udp(Datagram(SdpResponse(false)))) && c.opening.Raised? && !config.enforceTls)
            || TakesUp(h, c, Stop(true))
  {
    var h := Run(config, choices);
    assert (choices + [c])[..|choices|] == choices;
    RunIsExclusive(config, choices);
    if config.cycles == 0 {
      WithoutCycleStopped(config, choices);
    }
    if c.Loop? && !h.stopped && h.queue != [] {
      assert h.queue[1..] == [];
    }
  }

  // ---------------------------------------------------------------------
  // The handler whose fields the source updates
  // ---------------------------------------------------------------------

  class CommunicationSessionHandler {
    const config: Config
    var sdpRetriesNumber: nat
    var sdpRetryCycles: nat
    var autoRestartAttempts: nat
    var waiting: bool
    var queue: seq<Notification>
    var session: Session
    var stopped: bool
    ghost var sends: nat

    ghost function Model(): Handler
      reads this
    {
      Handler(config, sdpRetriesNumber, sdpRetryCycles, autoRestartAttempts, waiting, queue, session, stopped, sends)
    }

    constructor (c: Config)
      ensures config == c && Model() == Started(c)
    {
      config := c;
      sdpRetriesNumber := MAX_REQUESTS;
      sdpRetryCycles := c.cycles;
      autoRestartAttempts := 0;
      waiting, queue, session, stopped := false, [], NoSession, false;
      sends := 0;
    }

    method Restart(newCycle: bool) returns (failed: bool)
      modifies this
      ensures Outcome(Model(), failed) == RestartSdp(old(Model()), newCycle)
    {
      if newCycle {
        if sdpRetryCycles == 0 {
          return true;
        }
        sdpRetryCycles := sdpRetryCycles - 1;
        sdpRetriesNumber := MAX_REQUESTS;
      }
      if sdpRetriesNumber > 0 {
        waiting := true;
        sends := sends + 1;
        sdpRetriesNumber := sdpRetriesNumber - 1;
        failed := false;
      } else {
        sdpRetriesNumber := MAX_REQUESTS;
        failed := true;
      }
    }

    method RestartAfterFailure()
      modifies this
      ensures Model() == HandleSdpFailed(old(Model()))
    {
      if !config.autoRestart || (config.maxRestarts > 0 && autoRestartAttempts >= config.maxRestarts) {
        return;
      }
      autoRestartAttempts := autoRestartAttempts + 1;
      sdpRetryCycles := config.cycles;
      sdpRetriesNumber := MAX_REQUESTS;
      var failed := Restart(true);
      if failed {
        stopped := true;
      }
    }

    method RestartOrFail(newCycle: bool)
      modifies this
      ensures Model() == Retry(old(Model()), newCycle)
    {
      var failed := Restart(newCycle);
      if failed {
        RestartAfterFailure();
      }
    }

    method ProcessIncomingUdpPacket(p: Packet, opening: Opening)
      modifies this
      ensures Model() == ProcessPacket(old(Model()), p, opening)
    {
      match p
      case Malformed =>
      case InvalidSdpResponse => RestartOrFail(true);
      case UnknownSecurity => stopped := true;
      case SdpResponse(tls) =>
        if (!tls && config.enforceTls) || (tls && !config.useTls) {
          return;
        }
        match opening {
          case Opened => session := Running(tls);
          case Refused =>
          case Raised => stopped := true;
        }
      case Wireless => stopped := true;
      case OtherPayload => RestartOrFail(true);
    }

    /** One turn of the loop over the queue. */
    method GetFromRcvQueue(opening: Opening)
      modifies this
      ensures Model() == Step(old(Model()), Loop(opening))
    {
      if stopped || queue == [] {
        return;
      }
      var n := queue[0];
      queue := queue[1..];
      match n
      case Udp(Timeout) => RestartOrFail(false);
      case Udp(Datagram(p)) => ProcessIncomingUdpPacket(p, opening);
      case Stop(successful) =>
        if !session.Ended? {
          stopped := true;
          return;
        }
        session := NoSession;
        if successful {
          autoRestartAttempts := 0;
          stopped := true;
        } else {
          RestartOrFail(true);
        }
    }

    method StartSessionHandler()
      modifies this
      requires Model() == Started(config)
      ensures Model() == Begin(config)
    {
      var failed := Restart(true);
      if failed {
        stopped := true;
      }
    }
  }
}
