/**
 What holds in every run of the simulated ECU, whatever traffic is on the bus:
 requests are reassembled from the monitored segments alone, responses reach a
 tester that sends flow control, and session and security access are a function
 of the requests that were dispatched.
 */
module UdsEcuRuns {
  import opened Common
  import opened IsoTp
  import opened UdsEcu

  // ---------------------------------------------------------------------
  // Reading a trace
  // ---------------------------------------------------------------------

  function Project(trace: seq<Event>, f: Event -> seq<seq<byte>>): seq<seq<byte>> {
    if trace == [] then [] else Project(trace[..|trace| - 1], f) + f(trace[|trace| - 1])
  }

  function MultiRequest(e: Event): seq<seq<byte>> {
    if e.Request? && e.multi && |e.data| > 0 then [e.data[1..]] else []
  }

  function AnyRequest(e: Event): seq<seq<byte>> {
    if e.Request? then [e.data] else []
  }

  function SentSegment(e: Event): seq<seq<byte>> {
    if e.Sent? && IsSegment(e.data) then [e.data] else []
  }

  /** The payloads of the requests that arrived in several frames. */
  function Reassembled(trace: seq<Event>): seq<seq<byte>> {
    Project(trace, MultiRequest)
  }

  /** Every request that was dispatched. */
  function Requests(trace: seq<Event>): seq<seq<byte>> {
    Project(trace, AnyRequest)
  }

  /** The first and consecutive frames the ECU has put on the bus. */
  function Segmented(trace: seq<Event>): seq<seq<byte>> {
    Project(trace, SentSegment)
  }

  lemma {:induction false} ProjectAppend(a: seq<Event>, b: seq<Event>, f: Event -> seq<seq<byte>>)
    ensures Project(a + b, f) == Project(a, f) + Project(b, f)
  {
    if b == [] {
      assert a + b == a;
    } else {
      assert (a + b)[..|a + b| - 1] == a + b[..|b| - 1];
      ProjectAppend(a, b[..|b| - 1], f);
    }
  }

  lemma ProjectOne(e: Event, f: Event -> seq<seq<byte>>)
    ensures Project([e], f) == f(e)
  {
    assert [e][..0] == [];
  }

  lemma {:induction false} ProjectSent(frames: seq<seq<byte>>)
    requires forall d | d in frames :: IsSegment(d)
    ensures Project(SentFrames(frames), MultiRequest) == []
    ensures Project(SentFrames(frames), AnyRequest) == []
    ensures Project(SentFrames(frames), SentSegment) == frames
  {
    if frames != [] {
      var init := frames[..|frames| - 1];
      var sent := SentFrames(frames);
      assert sent[..|sent| - 1] == SentFrames(init);
      ProjectSent(init);
      assert frames == init + [frames[|frames| - 1]];
    }
  }

  /** The events of one dispatched request. */
  function Dispatched(c: Config, data: seq<byte>, multi: bool, seed: seq<byte>): seq<Event>
    requires |data| >= 2
  {
    var answer := Answer(c, data, seed);
    [Request(data, multi)] + if answer.None? then [] else Answered(answer.value)
  }

  function Answered(p: seq<byte>): seq<Event> {
    [Response(p), Sent(if |p| <= 7 then SingleFrame(p) else FirstFrame(p))]
  }

  lemma DispatchTrace(c: Config, t: Task, data: seq<byte>, multi: bool, seed: seq<byte>)
    requires |data| >= 2
    ensures Dispatch(c, t, data, multi, seed).trace == t.trace + Dispatched(c, data, multi, seed)
    ensures Dispatch(c, t, data, multi, seed).rx == t.rx
    ensures Dispatch(c, t, data, multi, seed).state == Effect(c, t.state, data)
  {}

  lemma ProjectAnswered(p: seq<byte>)
    ensures Project(Answered(p), MultiRequest) == Project(Answered(p), AnyRequest) == []
    ensures Project(Answered(p), SentSegment) == if |p| <= 7 then [] else [FirstFrame(p)]
  {
    var frame := if |p| <= 7 then SingleFrame(p) else FirstFrame(p);
    forall f: Event -> seq<seq<byte>> ensures Project(Answered(p), f) == f(Response(p)) + f(Sent(frame)) {
      assert Answered(p) == [Response(p)] + [Sent(frame)];
      ProjectAppend([Response(p)], [Sent(frame)], f);
      ProjectOne(Response(p), f);
      ProjectOne(Sent(frame), f);
    }
  }

  lemma ProjectDispatched(c: Config, trace: seq<Event>, data: seq<byte>, multi: bool, seed: seq<byte>)
    requires |data| >= 2
    ensures var next := trace + Dispatched(c, data, multi, seed);
            && Reassembled(next) == Reassembled(trace) + (if multi then [data[1..]] else [])
            && Requests(next) == Requests(trace) + [data]
  {
    var answer := Answer(c, data, seed);
    var tail := if answer.None? then [] else Answered(answer.value);
    if answer.Some? {
      ProjectAnswered(answer.value);
    }
    ProjectBoth(trace, Request(data, multi), tail, MultiRequest);
    ProjectBoth(trace, Request(data, multi), tail, AnyRequest);
  }

  lemma {:induction false} ProjectBoth(trace: seq<Event>, e: Event, tail: seq<Event>, f: Event -> seq<seq<byte>>)
    ensures Project(trace + ([e] + tail), f) == Project(trace, f) + (f(e) + Project(tail, f))
  {
    ProjectAppend(trace, [e] + tail, f);
    ProjectAppend([e], tail, f);
    ProjectOne(e, f);
  }

  // ---------------------------------------------------------------------
  // Requests in several frames
  // ---------------------------------------------------------------------

  /** The monitored first and consecutive frames among the traffic. */
  function Transfers(c: Config, inputs: seq<Input>): (frames: seq<seq<byte>>)
    ensures forall d | d in frames :: IsSegment(d)
  {
    if inputs == [] then []
    else
      var before := Transfers(c, inputs[..|inputs| - 1]);
      var f := inputs[|inputs| - 1].frame;
      if IsTransfer(c, f) then before + [f.data] else before
  }

  lemma {:induction false} TransfersAppend(c: Config, a: seq<Input>, b: seq<Input>)
    ensures Transfers(c, a + b) == Transfers(c, a) + Transfers(c, b)
  {
    if b == [] {
      assert a + b == a;
    } else {
      assert (a + b)[..|a + b| - 1] == a + b[..|b| - 1];
      TransfersAppend(c, a, b[..|b| - 1]);
    }
  }

  lemma {:induction false} ProjectPush(trace: seq<Event>, frames: seq<seq<byte>>, f: Event -> seq<seq<byte>>)
    requires f(FlowControl) == []
    ensures Project(trace + [FlowControl], f) == Project(trace, f)
    ensures Project(trace + [FlowControl] + SentFrames(frames), f) == Project(trace, f) + Project(SentFrames(frames), f)
  {
    ProjectAppend(trace + [FlowControl], SentFrames(frames), f);
    ProjectAppend(trace, [FlowControl], f);
    ProjectOne(FlowControl, f);
  }

  /** The segments among the first inputs are the first of the segments. */
  lemma TransfersPrefix(c: Config, traffic: seq<Input>, k: nat) returns (n: nat)
    requires k <= |traffic|
    ensures n <= |Transfers(c, traffic)| && Transfers(c, traffic[..k]) == Transfers(c, traffic)[..n]
    ensures Transfers(c, traffic[..k]) == Transfers(c, traffic) <==> n == |Transfers(c, traffic)|
  {
    n := |Transfers(c, traffic[..k])|;
    TransfersAppend(c, traffic[..k], traffic[k..]);
    assert traffic == traffic[..k] + traffic[k..];
  }

  lemma PushKeepsRequests(t: Task, noted: Task)
    requires t.txSeq / 16 == 2 || t.txBuffer == []
    requires noted == t.(trace := t.trace + [FlowControl])
    ensures Reassembled(Push(noted).trace) == Reassembled(noted.trace) == Reassembled(t.trace)
    ensures Requests(Push(noted).trace) == Requests(noted.trace) == Requests(t.trace)
  {
    var frames := ConsecutiveFrames(t.txBuffer, t.txSeq);
    if t.txBuffer != [] {
      ConsecutiveAreSegments(t.txBuffer, t.txSeq);
    }
    ProjectSent(frames);
    ProjectPush(t.trace, frames, MultiRequest);
    ProjectPush(t.trace, frames, AnyRequest);
  }

  /** The sequence number always has the type of a consecutive frame while bytes wait. */
  lemma {:induction false} SeqIsConsecutive(c: Config, inputs: seq<Input>)
    ensures var t := Run(c, inputs); t.txSeq / 16 == 2 || t.txBuffer == []
  {
    if inputs != [] {
      SeqIsConsecutive(c, inputs[..|inputs| - 1]);
    }
  }

  /**
   Under arbitrary traffic, what the ECU reassembles is exactly what a plain
   receiver makes of the monitored segments: nothing else on the bus disturbs it.
   */
  lemma {:induction false} ReassemblyRefinesFeed(c: Config, inputs: seq<Input>)
    ensures var fed := Feed(Idle, Transfers(c, inputs));
            && Run(c, inputs).rx == fed.rx
            && Reassembled(Run(c, inputs).trace) == fed.payloads
  {
    if inputs != [] {
      var init, i := inputs[..|inputs| - 1], inputs[|inputs| - 1];
      var t := Run(c, init);
      ReassemblyRefinesFeed(c, init);
      if IsFlowControl(c, i.frame) {
        SeqIsConsecutive(c, init);
        PushKeepsRequests(t, t.(trace := t.trace + [FlowControl]));
      } else if IsTransfer(c, i.frame) {
        FeedLast(Idle, Transfers(c, init), i.frame.data);
        var taken := Take(t.rx, i.frame.data);
        if taken.payload.Some? {
          var data := Shaped(taken.payload.value);
          DispatchTrace(c, t.(rx := taken.rx), data, true, i.seed);
          ProjectDispatched(c, t.trace, data, true, i.seed);
        }
      } else if IsSingle(c, i.frame) {
        DispatchTrace(c, t, i.frame.data, false, i.seed);
        ProjectDispatched(c, t.trace, i.frame.data, false, i.seed);
      }
    }
  }

  lemma {:induction false} FeedAppend(rx: Rx, a: seq<seq<byte>>, b: seq<seq<byte>>)
    ensures var first := Feed(rx, a);
            var second := Feed(first.rx, b);
            Feed(rx, a + b) == Fed(second.rx, first.payloads + second.payloads)
    decreases |a|
  {
    if a == [] {
      assert a + b == b;
    } else {
      assert (a + b)[1..] == a[1..] + b;
      FeedAppend(Take(rx, a[0]).rx, a[1..], b);
    }
  }

  /** A payload that is sent while other traffic is interleaved with its segments. */
  ghost predicate Carries(c: Config, traffic: seq<Input>, p: seq<byte>) {
    7 < |p| && Transfers(c, traffic) == Segments(p)
  }

  /** What further traffic adds is what its segments alone make of the transfer under way. */
  lemma {:induction false} FurtherTraffic(c: Config, before: seq<Input>, traffic: seq<Input>)
    ensures Reassembled(Run(c, before + traffic).trace) ==
            Reassembled(Run(c, before).trace) + Feed(Run(c, before).rx, Transfers(c, traffic)).payloads
  {
    ReassemblyRefinesFeed(c, before);
    ReassemblyRefinesFeed(c, before + traffic);
    TransfersAppend(c, before, traffic);
    FeedAppend(Idle, Transfers(c, before), Transfers(c, traffic));
  }

  /**
   After any run, traffic whose monitored segments are those of a payload of 8
   to 4095 bytes makes the ECU dispatch exactly that payload, once, with the
   frame that completes the segments and not before.
   */
  lemma {:induction false} InterleavedTransfer(c: Config, before: seq<Input>, traffic: seq<Input>, p: seq<byte>, k: nat)
    requires Carries(c, traffic, p) && |p| <= MAX_LENGTH
    requires k <= |traffic|
    ensures Reassembled(Run(c, before + traffic[..k]).trace) ==
            Reassembled(Run(c, before).trace) + if Transfers(c, traffic[..k]) == Segments(p) then [p] else []
  {
    var n := TransfersPrefix(c, traffic, k);
    FurtherTraffic(c, before, traffic[..k]);
    DeliveredWithTheLastFrame(Run(c, before).rx, p, n);
  }

  /** While reassembly is pending, its buffer is shorter than the announced length of at most 4095. */
  lemma {:induction false} PendingIsShort(c: Config, inputs: seq<Input>)
    ensures RxValid(Run(c, inputs).rx)
  {
    ReassemblyRefinesFeed(c, inputs);
    DeliveriesAreShort(Idle, Transfers(c, inputs));
  }

  // ---------------------------------------------------------------------
  // Session and security access
  // ---------------------------------------------------------------------

  predicate IsReset(data: seq<byte>) {
    |data| >= 2 && Service(data) == 0x11 && 0x01 <= At(data, 2, 0x01) <= 0x03
  }

  predicate IsSendKey(data: seq<byte>) {
    |data| >= 2 && Service(data) == 0x27 && At(data, 2, 0x01) % 2 == 0
  }

  predicate SelectsSession(c: Config, data: seq<byte>) {
    |data| >= 2 && Service(data) == 0x10 && !c.silent && 0x01 <= At(data, 2, 0x01) <= 0x04
  }

  /** No reset follows request i. */
  predicate NoResetAfter(reqs: seq<seq<byte>>, i: nat) {
    forall j | i < j < |reqs| :: !IsReset(reqs[j])
  }

  predicate UnlockedBy(reqs: seq<seq<byte>>, i: nat) {
    i < |reqs| && IsSendKey(reqs[i]) && NoResetAfter(reqs, i)
  }

  /** Request i selected the session, and nothing later selects another or resets it. */
  predicate SessionFrom(c: Config, reqs: seq<seq<byte>>, i: nat) {
    && i < |reqs| && SelectsSession(c, reqs[i]) && NoResetAfter(reqs, i)
    && forall j | i < j < |reqs| :: !SelectsSession(c, reqs[j])
  }

  /** The state that a log of requests leaves behind, described without running it. */
  ghost predicate Describes(c: Config, reqs: seq<seq<byte>>, s: State) {
    && (s.unlocked <==> exists i: nat :: UnlockedBy(reqs, i))
    && (forall i: nat | SessionFrom(c, reqs, i) :: s.session == At(reqs[i], 2, 0x01))
    && ((forall i: nat :: !SessionFrom(c, reqs, i)) ==> s.session == DEFAULT_SESSION)
  }

  lemma DescribesStep(c: Config, reqs: seq<seq<byte>>, s: State, data: seq<byte>)
    requires Describes(c, reqs, s) && |data| >= 2
    ensures Describes(c, reqs + [data], Effect(c, s, data))
  {
    var next := reqs + [data];
    var n := |reqs|;
    assert next[n] == data && NoResetAfter(next, n);
    assert forall i | 0 <= i < n :: next[i] == reqs[i];
    assert forall i: nat | i < n :: NoResetAfter(next, i) <==> NoResetAfter(reqs, i) && !IsReset(next[n]);
    assert forall i: nat | i < n :: UnlockedBy(next, i) <==> UnlockedBy(reqs, i) && !IsReset(data);
    assert UnlockedBy(next, n) <==> IsSendKey(data);
    assert forall i: nat | i < n :: SessionFrom(c, next, i) <==>
                                    SessionFrom(c, reqs, i) && !IsReset(data) && !SelectsSession(c, next[n]);
    assert SessionFrom(c, next, n) <==> SelectsSession(c, data);
    if !IsReset(data) && !SelectsSession(c, data) && (forall i: nat :: !SessionFrom(c, next, i)) {
      forall i: nat ensures !SessionFrom(c, reqs, i) {
        assert i < n ==> !SessionFrom(c, next, i);
      }
    }
    if exists i: nat :: UnlockedBy(reqs, i) {
      var i: nat :| UnlockedBy(reqs, i);
      assert UnlockedBy(next, i) <==> !IsReset(data);
    }
  }

  /**
   In every run the session is the one selected by the last accepted session
   control since the last reset of kind 1 to 3, and the default session if there
   is none; security access is unlocked exactly when some key came after the last
   such reset. Which frames carried the requests makes no difference.
   */
  lemma {:induction false} StateIsDescribedByRequests(c: Config, inputs: seq<Input>)
    ensures Describes(c, Requests(Run(c, inputs).trace), Run(c, inputs).state)
  {
    if inputs != [] {
      var init, i := inputs[..|inputs| - 1], inputs[|inputs| - 1];
      var t := Run(c, init);
      StateIsDescribedByRequests(c, init);
      if IsFlowControl(c, i.frame) {
        SeqIsConsecutive(c, init);
        PushKeepsRequests(t, t.(trace := t.trace + [FlowControl]));
      } else if IsTransfer(c, i.frame) {
        var taken := Take(t.rx, i.frame.data);
        if taken.payload.Some? {
          StateAfterDispatch(c, t.(rx := taken.rx), Shaped(taken.payload.value), true, i.seed);
        }
      } else if IsSingle(c, i.frame) {
        StateAfterDispatch(c, t, i.frame.data, false, i.seed);
      }
    }
  }

  lemma StateAfterDispatch(c: Config, t: Task, data: seq<byte>, multi: bool, seed: seq<byte>)
    requires |data| >= 2 && Describes(c, Requests(t.trace), t.state)
    ensures var next := Dispatch(c, t, data, multi, seed); Describes(c, Requests(next.trace), next.state)
  {
    DispatchTrace(c, t, data, multi, seed);
    ProjectDispatched(c, t.trace, data, multi, seed);
    DescribesStep(c, Requests(t.trace), t.state, data);
  }

  /** The session is always one of the four, and in silent mode the default one. */
  lemma {:induction false} SessionIsKnown(c: Config, inputs: seq<Input>)
    ensures 0x01 <= Run(c, inputs).state.session <= 0x04
    ensures c.silent ==> Run(c, inputs).state.session == DEFAULT_SESSION
  {
    StateIsDescribedByRequests(c, inputs);
    var reqs := Requests(Run(c, inputs).trace);
    if i: nat :| SessionFrom(c, reqs, i) {
      assert SelectsSession(c, reqs[i]);
    }
  }
}
