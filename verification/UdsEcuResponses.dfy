/**
 The ECU's answers in every run: what waits in the transmit buffer, what a flow
 control frame releases, and what a tester reassembles from the frames it sees.
 */
module UdsEcuResponses {
  import opened Common
  import opened IsoTp
  import opened UdsEcu
  import opened UdsEcuRuns

  /** What a tester has asked for: a long response that waits for flow control, and those released so far. */
  datatype Pickup = Pickup(waiting: Option<seq<byte>>, released: seq<seq<byte>>)

  /** A later long response displaces one that still waits; each flow control releases what waits. */
  function Offer(p: Pickup, e: Event): Pickup {
    match e
    case Response(payload) => if |payload| > 7 then p.(waiting := Some(payload)) else p
    case FlowControl => if p.waiting.Some? then Pickup(None, p.released + [p.waiting.value]) else p
    case _ => p
  }

  function Pickups(trace: seq<Event>): Pickup {
    if trace == [] then Pickup(None, []) else Offer(Pickups(trace[..|trace| - 1]), trace[|trace| - 1])
  }

  /** The most recent response that did not fit in one frame. */
  function LastLong(trace: seq<Event>): Option<seq<byte>> {
    if trace == [] then None
    else
      var e := trace[|trace| - 1];
      if e.Response? && |e.payload| > 7 then Some(e.payload) else LastLong(trace[..|trace| - 1])
  }

  /** The most recent first frame on the bus. */
  function LastFirstFrame(trace: seq<Event>): Option<seq<byte>> {
    if trace == [] then None
    else
      var e := trace[|trace| - 1];
      if e.Sent? && |e.data| > 0 && FrameType(e.data) == 1 then Some(e.data)
      else LastFirstFrame(trace[..|trace| - 1])
  }

  /** What a tester that follows the same transport makes of everything the ECU sent. */
  function Tester(trace: seq<Event>): Fed {
    Feed(Idle, Segmented(trace))
  }

  /** Every frame on the bus has eight bytes. */
  ghost predicate EightBytes(trace: seq<Event>) {
    forall e | e in trace && e.Sent? :: |e.data| == 8
  }

  ghost predicate Inv(t: Task) {
    var w := Pickups(t.trace).waiting;
    && EightBytes(t.trace)
    && (if w.None? then t.txBuffer == []
        else |w.value| > 7 && t.txBuffer == w.value[6..] && t.txSeq == 0x21)
    && (w.Some? ==> w == LastLong(t.trace) && LastFirstFrame(t.trace) == Some(FirstFrame(w.value)))
  }

  // ---------------------------------------------------------------------
  // One dispatch, one flow control
  // ---------------------------------------------------------------------

  lemma {:induction false} Snoc(trace: seq<Event>, e: Event)
    ensures Pickups(trace + [e]) == Offer(Pickups(trace), e)
    ensures LastLong(trace + [e]) == if e.Response? && |e.payload| > 7 then Some(e.payload) else LastLong(trace)
    ensures LastFirstFrame(trace + [e]) ==
            if e.Sent? && |e.data| > 0 && FrameType(e.data) == 1 then Some(e.data) else LastFirstFrame(trace)
  {
    assert (trace + [e])[..|trace|] == trace;
  }

  lemma SendKeepsInv(t: Task, p: seq<byte>)
    requires Inv(t)
    ensures Inv(Send(t, p))
    ensures Pickups(Send(t, p).trace) == Offer(Pickups(t.trace), Response(p))
  {
    var logged := t.trace + [Response(p)];
    Snoc(t.trace, Response(p));
    Snoc(logged, Sent(if |p| <= 7 then SingleFrame(p) else FirstFrame(p)));
    if |p| > 7 {
      FirstFrameStarts(Idle, p);
    }
  }

  lemma RequestKeepsInv(t: Task, state: State, data: seq<byte>, multi: bool)
    requires Inv(t)
    ensures Inv(t.(state := state, trace := t.trace + [Request(data, multi)]))
    ensures Pickups(t.trace + [Request(data, multi)]) == Pickups(t.trace)
  {
    Snoc(t.trace, Request(data, multi));
  }

  lemma DispatchKeepsInv(c: Config, t: Task, data: seq<byte>, multi: bool, seed: seq<byte>)
    requires Inv(t) && |data| >= 2
    ensures Inv(Dispatch(c, t, data, multi, seed))
  {
    RequestKeepsInv(t, Effect(c, t.state, data), data, multi);
    var handled := t.(state := Effect(c, t.state, data), trace := t.trace + [Request(data, multi)]);
    var answer := Answer(c, data, seed);
    if answer.Some? {
      SendKeepsInv(handled, answer.value);
    }
  }

  lemma {:induction false} SentKeepsPickups(trace: seq<Event>, frames: seq<seq<byte>>)
    ensures Pickups(trace + SentFrames(frames)) == Pickups(trace)
  {
    if frames == [] {
      assert trace + SentFrames(frames) == trace;
    } else {
      var init, f := frames[..|frames| - 1], frames[|frames| - 1];
      assert trace + SentFrames(frames) == trace + SentFrames(init) + [Sent(f)];
      SentKeepsPickups(trace, init);
      Snoc(trace + SentFrames(init), Sent(f));
    }
  }

  lemma PushKeepsInv(t: Task)
    requires Inv(t)
    ensures var noted := t.(trace := t.trace + [FlowControl]);
            var next := if t.txBuffer == [] then noted else Push(noted);
            Inv(next) && Pickups(next.trace) == Offer(Pickups(t.trace), FlowControl)
  {
    Snoc(t.trace, FlowControl);
    if t.txBuffer != [] {
      ConsecutiveAreSegments(t.txBuffer, t.txSeq);
      SentKeepsPickups(t.trace + [FlowControl], ConsecutiveFrames(t.txBuffer, t.txSeq));
    }
  }

  /** The transmit buffer is empty or exactly the unsent tail of the most recent long response. */
  lemma {:induction false} BufferHoldsTheLastLongResponse(c: Config, inputs: seq<Input>)
    ensures Inv(Run(c, inputs))
    ensures var t := Run(c, inputs);
            t.txBuffer == [] || exists p :: LastLong(t.trace) == Some(p) && |p| > 7 && t.txBuffer == p[6..]
  {
    if inputs != [] {
      var init, i := inputs[..|inputs| - 1], inputs[|inputs| - 1];
      var t := Run(c, init);
      BufferHoldsTheLastLongResponse(c, init);
      if IsFlowControl(c, i.frame) {
        PushKeepsInv(t);
      } else if IsTransfer(c, i.frame) {
        var taken := Take(t.rx, i.frame.data);
        if taken.payload.Some? {
          DispatchKeepsInv(c, t.(rx := taken.rx), Shaped(taken.payload.value), true, i.seed);
        }
      } else if IsSingle(c, i.frame) {
        DispatchKeepsInv(c, t, i.frame.data, false, i.seed);
      }
    }
  }

  lemma {:induction false} ConsecutiveNumber(p: seq<byte>, k: nat)
    requires |p| > 7 && 1 <= k < |Segments(p)|
    ensures |Segments(p)[k]| == 8 && Segments(p)[k][0] == 0x20 + k % 16
  {
    var others := ConsecutiveFrames(p[6..], 0x21);
    assert Segments(p)[k] == others[k - 1];
    SequenceNumbers(p[6..], 1, k - 1);
  }

  lemma {:induction false} ConsecutiveNumbers(p: seq<byte>)
    requires |p| > 7
    ensures forall k | 1 <= k < |Segments(p)| :: |Segments(p)[k]| == 8 && Segments(p)[k][0] == 0x20 + k % 16
  {
    forall k | 1 <= k < |Segments(p)|
      ensures |Segments(p)[k]| == 8 && Segments(p)[k][0] == 0x20 + k % 16
    {
      ConsecutiveNumber(p, k);
    }
  }

  /**
   A flow control frame that finds bytes waiting releases frames which, with the
   last first frame on the bus, are the segments of the last long response: the
   k-th of them carries 0x20 | (k mod 16), each has eight bytes, and a receiver
   delivers exactly that response if and only if it has at most 4095 bytes.
   */
  lemma FlowControlCompletesTheResponse(c: Config, inputs: seq<Input>, i: Input) returns (p: seq<byte>)
    requires IsFlowControl(c, i.frame) && Run(c, inputs).txBuffer != []
    ensures var t := Run(c, inputs);
            && |p| > 7 && LastLong(t.trace) == Some(p) && LastFirstFrame(t.trace) == Some(FirstFrame(p))
            && Run(c, inputs + [i]).trace == t.trace + [FlowControl] + SentFrames(Segments(p)[1..])
            && Run(c, inputs + [i]).txBuffer == []
    ensures forall k | 1 <= k < |Segments(p)| :: |Segments(p)[k]| == 8 && Segments(p)[k][0] == 0x20 + k % 16
    ensures forall rx | RxValid(rx) :: Feed(rx, Segments(p)).payloads == [p] <==> |p| <= MAX_LENGTH
  {
    var t := Run(c, inputs);
    BufferHoldsTheLastLongResponse(c, inputs);
    p := Pickups(t.trace).waiting.value;
    assert Segments(p)[1..] == ConsecutiveFrames(p[6..], 0x21);
    assert (inputs + [i])[..|inputs|] == inputs;
    ConsecutiveNumbers(p);
    forall rx | RxValid(rx) ensures Feed(rx, Segments(p)).payloads == [p] <==> |p| <= MAX_LENGTH {
      RoundTrip(rx, p);
    }
  }

  // ---------------------------------------------------------------------
  // End to end: what the tester receives
  // ---------------------------------------------------------------------

  /** The tester has exactly the released responses, and is in the middle of the one that waits. */
  ghost predicate Mirrors(trace: seq<Event>) {
    var p := Pickups(trace);
    && Tester(trace).payloads == p.released
    && (if p.waiting.None? then Tester(trace).rx == Idle
        else |p.waiting.value| > 7 && Tester(trace).rx == Pending(p.waiting.value[..6], |p.waiting.value|))
  }

  lemma MirrorsOther(trace: seq<Event>, e: Event)
    requires Mirrors(trace) && SentSegment(e) == [] && !e.FlowControl? && !(e.Response? && |e.payload| > 7)
    ensures Mirrors(trace + [e])
  {
    Snoc(trace, e);
    ProjectAppend(trace, [e], SentSegment);
    ProjectOne(e, SentSegment);
    assert Segmented(trace + [e]) == Segmented(trace);
  }

  lemma MirrorsSend(t: Task, p: seq<byte>)
    requires Mirrors(t.trace) && |p| <= MAX_LENGTH
    ensures Mirrors(Send(t, p).trace)
  {
    var logged := t.trace + [Response(p)];
    if |p| <= 7 {
      MirrorsOther(t.trace, Response(p));
      MirrorsOther(logged, Sent(SingleFrame(p)));
    } else {
      var f := FirstFrame(p);
      FirstFrameStarts(Tester(t.trace).rx, p);
      Snoc(t.trace, Response(p));
      Snoc(logged, Sent(f));
      assert logged + [Sent(f)] == t.trace + Answered(p);
      ProjectAppend(t.trace, Answered(p), SentSegment);
      ProjectAnswered(p);
      FeedLast(Idle, Segmented(t.trace), f);
    }
  }

  lemma MirrorsDispatch(c: Config, t: Task, data: seq<byte>, multi: bool, seed: seq<byte>)
    requires Mirrors(t.trace) && |data| >= 2 && |seed| == 4 && |c.vin| <= MAX_LENGTH - 3
    ensures Mirrors(Dispatch(c, t, data, multi, seed).trace)
  {
    MirrorsOther(t.trace, Request(data, multi));
    var handled := t.(state := Effect(c, t.state, data), trace := t.trace + [Request(data, multi)]);
    var answer := Answer(c, data, seed);
    if answer.Some? {
      MirrorsSend(handled, answer.value);
    }
  }

  /** A receiver in the middle of a payload delivers it with the remaining frames. */
  lemma {:induction false} FeedRest(segments: seq<seq<byte>>, p: seq<byte>)
    requires 7 < |p|
    requires Feed(Idle, segments).rx == Pending(p[..6], |p|)
    ensures var all := segments + ConsecutiveFrames(p[6..], 0x21);
            Feed(Idle, all) == Fed(Idle, Feed(Idle, segments).payloads + [p])
  {
    FeedAppend(Idle, segments, ConsecutiveFrames(p[6..], 0x21));
    RestDelivers(p);
  }

  lemma MirrorsPush(t: Task)
    requires Mirrors(t.trace) && Inv(t) && t.txBuffer != []
    ensures Mirrors(Push(t.(trace := t.trace + [FlowControl])).trace)
  {
    var p := Pickups(t.trace).waiting.value;
    var frames := ConsecutiveFrames(p[6..], 0x21);
    PushKeepsInv(t);
    FeedRest(Segmented(t.trace), p);
    SegmentedAfterPush(t.trace, p);
  }

  lemma SegmentedAfterPush(trace: seq<Event>, p: seq<byte>)
    requires |p| > 7
    ensures var frames := ConsecutiveFrames(p[6..], 0x21);
            Segmented(trace + [FlowControl] + SentFrames(frames)) == Segmented(trace) + frames
  {
    var frames := ConsecutiveFrames(p[6..], 0x21);
    ConsecutiveAreSegments(p[6..], 0x21);
    ProjectSent(frames);
    ProjectPush(trace, frames, SentSegment);
  }

  ghost predicate SeedsDrawn(inputs: seq<Input>) {
    forall i | i in inputs :: |i.seed| == 4
  }

  lemma {:induction false} RunMirrors(c: Config, inputs: seq<Input>)
    requires SeedsDrawn(inputs) && |c.vin| <= MAX_LENGTH - 3
    ensures Mirrors(Run(c, inputs).trace)
  {
    if inputs != [] {
      var init, i := inputs[..|inputs| - 1], inputs[|inputs| - 1];
      var t := Run(c, init);
      RunMirrors(c, init);
      BufferHoldsTheLastLongResponse(c, init);
      if IsFlowControl(c, i.frame) {
        if t.txBuffer != [] {
          MirrorsPush(t);
        } else {
          Snoc(t.trace, FlowControl);
          ProjectPush(t.trace, [], SentSegment);
        }
      } else if IsTransfer(c, i.frame) {
        var taken := Take(t.rx, i.frame.data);
        if taken.payload.Some? {
          MirrorsDispatch(c, t.(rx := taken.rx), Shaped(taken.payload.value), true, i.seed);
        }
      } else if IsSingle(c, i.frame) {
        MirrorsDispatch(c, t, i.frame.data, false, i.seed);
      }
    }
  }

  ghost predicate TesterGetsReleased(c: Config, inputs: seq<Input>) {
    Tester(Run(c, inputs).trace).payloads == Pickups(Run(c, inputs).trace).released
  }

  /** A request for the VIN by OBD mode 0x09 or by its UDS data identifier. */
  predicate AsksForVin(data: seq<byte>) {
    data == [0x02, 0x09, 0x02] || data == [0x03, 0x22, 0xF1, 0x90]
  }

  function VinResponse(c: Config, data: seq<byte>): seq<byte>
    requires AsksForVin(data)
  {
    (if data[1] == 0x09 then [0x49, 0x02, 0x01] else [0x62, 0xF1, 0x90]) + c.vin
  }

  lemma VinAnswer(c: Config, data: seq<byte>, seed: seq<byte>)
    requires AsksForVin(data)
    ensures Answer(c, data, seed) == Some(VinResponse(c, data))
    ensures forall id | id in c.requestIds :: IsSingle(c, Frame(id, data))
  {
    if data[1] == 0x09 {
      assert [0x49] + ([0x02] + ([0x01] + c.vin)) == VinResponse(c, data);
    } else {
      assert [0x62] + ([0xF1, 0x90] + c.vin) == VinResponse(c, data);
    }
  }

  lemma DispatchOffers(c: Config, t: Task, data: seq<byte>, multi: bool, seed: seq<byte>, p: seq<byte>)
    requires Inv(t) && |data| >= 2 && Answer(c, data, seed) == Some(p)
    ensures Pickups(Dispatch(c, t, data, multi, seed).trace) == Offer(Pickups(t.trace), Response(p))
  {
    RequestKeepsInv(t, Effect(c, t.state, data), data, multi);
    SendKeepsInv(t.(state := Effect(c, t.state, data), trace := t.trace + [Request(data, multi)]), p);
  }

  lemma {:induction false} SingleIsDispatched(c: Config, inputs: seq<Input>, i: Input)
    requires IsSingle(c, i.frame)
    ensures Run(c, inputs + [i]) == Dispatch(c, Run(c, inputs), i.frame.data, false, i.seed)
  {
    assert (inputs + [i])[..|inputs|] == inputs;
  }

  /** A request in one frame whose answer is long leaves that answer waiting. */
  lemma {:induction false} LongAnswerWaits(c: Config, inputs: seq<Input>, ask: Input, p: seq<byte>)
    requires IsSingle(c, ask.frame) && Answer(c, ask.frame.data, ask.seed) == Some(p) && |p| > 7
    ensures Pickups(Run(c, inputs + [ask]).trace) == Pickups(Run(c, inputs).trace).(waiting := Some(p))
  {
    BufferHoldsTheLastLongResponse(c, inputs);
    SingleIsDispatched(c, inputs, ask);
    DispatchOffers(c, Run(c, inputs), ask.frame.data, false, ask.seed, p);
  }

  /** A flow control releases what waits. */
  lemma {:induction false} ReleasedByFlowControl(c: Config, inputs: seq<Input>, release: Input, p: seq<byte>)
    requires IsFlowControl(c, release.frame) && Pickups(Run(c, inputs).trace).waiting == Some(p)
    ensures Pickups(Run(c, inputs + [release]).trace) == Pickup(None, Pickups(Run(c, inputs).trace).released + [p])
  {
    BufferHoldsTheLastLongResponse(c, inputs);
    PushKeepsInv(Run(c, inputs));
    assert (inputs + [release])[..|inputs|] == inputs;
  }

  /** A response that is too long to be announced never reaches the tester. */
  lemma {:induction false} LongResponseIsLost(c: Config, inputs: seq<Input>, p: seq<byte>)
    requires p in Pickups(Run(c, inputs).trace).released && |p| > MAX_LENGTH
    ensures !TesterGetsReleased(c, inputs)
  {
    var trace := Run(c, inputs).trace;
    DeliveriesAreShort(Idle, Segmented(trace));
  }

  /** The shortest run in which a long VIN is asked for and released. */
  lemma LongVinIsLost(c: Config, id: nat) returns (inputs: seq<Input>)
    requires id in c.requestIds && |c.vin| > MAX_LENGTH - 3
    ensures SeedsDrawn(inputs) && !TesterGetsReleased(c, inputs)
  {
    var ask := Input(Frame(id, [0x02, 0x09, 0x02]), [0, 0, 0, 0]);
    var release := Input(Frame(id, [0x30]), [0, 0, 0, 0]);
    var p := VinResponse(c, ask.frame.data);
    VinAnswer(c, ask.frame.data, ask.seed);
    LongAnswerWaits(c, [], ask, p);
    inputs := [] + [ask] + [release];
    ReleasedByFlowControl(c, [] + [ask], release, p);
    LongResponseIsLost(c, inputs, p);
  }

  /**
   In every run a tester that reassembles the ECU's frames ends up with exactly
   the long responses for which flow control arrived in time, each once and in
   order, if and only if the VIN has at most 4092 characters.
   */
  lemma TesterGetsWhatItReleases(c: Config)
    requires c.requestIds != {}
    ensures |c.vin| <= MAX_LENGTH - 3 <==> forall inputs | SeedsDrawn(inputs) :: TesterGetsReleased(c, inputs)
  {
    if |c.vin| <= MAX_LENGTH - 3 {
      forall inputs | SeedsDrawn(inputs) ensures TesterGetsReleased(c, inputs) {
        RunMirrors(c, inputs);
      }
    } else {
      var id :| id in c.requestIds;
      var inputs := LongVinIsLost(c, id);
      assert !TesterGetsReleased(c, inputs);
    }
  }

  /** The payload of a single frame. */
  function Unpacked(f: seq<byte>): seq<byte>
    requires |f| == 8 && f[0] <= 7
  {
    f[1..f[0] + 1]
  }

  /** An answer of up to seven bytes goes out at once, and a tester reads it from the one frame. */
  lemma {:induction false} ShortAnswerIsSent(c: Config, inputs: seq<Input>, ask: Input, p: seq<byte>)
    requires IsSingle(c, ask.frame) && Answer(c, ask.frame.data, ask.seed) == Some(p) && |p| <= 7
    ensures Run(c, inputs + [ask]).trace ==
            Run(c, inputs).trace + [Request(ask.frame.data, false), Response(p), Sent(SingleFrame(p))]
    ensures SingleFrame(p)[0] <= 7 && Unpacked(SingleFrame(p)) == p
  {
    SingleIsDispatched(c, inputs, ask);
    DispatchTrace(c, Run(c, inputs), ask.frame.data, false, ask.seed);
  }

  /**
   After any run, a tester that asks for the VIN gets it behind the header of its service:
   if the answer fits one frame, as the payload of the frame sent at once; otherwise, once
   it has sent flow control, as the one more payload that it has reassembled.
   */
  lemma {:induction false} VinIsDelivered(c: Config, inputs: seq<Input>, ask: Input, release: Input)
    requires SeedsDrawn(inputs) && |ask.seed| == |release.seed| == 4 && |c.vin| <= MAX_LENGTH - 3
    requires ask.frame.id in c.requestIds && AsksForVin(ask.frame.data) && IsFlowControl(c, release.frame)
    ensures var p := VinResponse(c, ask.frame.data);
            if |p| <= 7 then
              && var f := SingleFrame(p);
                 && f[0] <= 7 && Unpacked(f) == p
                 && Run(c, inputs + [ask]).trace ==
                    Run(c, inputs).trace + [Request(ask.frame.data, false), Response(p), Sent(f)]
            else
              Tester(Run(c, inputs + [ask] + [release]).trace).payloads == Tester(Run(c, inputs).trace).payloads + [p]
  {
    var p := VinResponse(c, ask.frame.data);
    VinAnswer(c, ask.frame.data, ask.seed);
    if |p| <= 7 {
      ShortAnswerIsSent(c, inputs, ask, p);
    } else {
      LongAnswerWaits(c, inputs, ask, p);
      ReleasedByFlowControl(c, inputs + [ask], release, p);
      RunMirrors(c, inputs);
      RunMirrors(c, inputs + [ask] + [release]);
    }
  }
}
