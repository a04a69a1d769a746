/**
 How the simulated ECU's answers follow from the requests: what an answer repeats of its
 request, when it is negative, and which frames make a request at all.
 */
module UdsEcuAnswers {
  import opened Common
  import opened IsoTp
  import opened UdsEcu
  import opened UdsEcuRuns

  /** The services that the ECU knows. */
  const KNOWN: set<byte> := {
    0x01, 0x02, 0x03, 0x04, 0x07, 0x09, 0x0A,
    0x10, 0x11, 0x14, 0x19, 0x22, 0x27, 0x28, 0x2E, 0x31, 0x3E, 0x85
  }

  /** Byte i of a request, or what stands for it where the request is too short. */
  function Byte(data: seq<byte>, i: nat, missing: byte): byte {
    if i < |data| then data[i] else missing
  }

  /** The negative response code of a request, if it gets one. */
  function Refusal(data: seq<byte>): Option<byte>
    requires |data| >= 2
  {
    var sid, sub := data[1], Byte(data, 2, 0x01);
    if sid !in KNOWN then Some(0x11)
    else if sid in {0x22, 0x2E, 0x31} && |data| < 4 then Some(0x13)
    else if sid == 0x22 && !(data[2] == 0xF1 && data[3] in {0x87, 0x89, 0x90, 0x91, 0x9E}) then Some(0x31)
    else if sid == 0x10 && !(1 <= sub <= 4) then Some(0x12)
    else if sid == 0x11 && !(1 <= sub <= 5) then Some(0x12)
    else if sid == 0x19 && sub !in {0x01, 0x02, 0x06, 0x0A} then Some(0x12)
    else if sid == 0x28 && Byte(data, 2, 0x00) > 3 then Some(0x12)
    else if sid == 0x85 && !(1 <= sub <= 2) then Some(0x12)
    else None
  }

  /** Answered at all is everything but session control in silent mode; refused is exactly what has a refusal. */
  lemma RefusedExactly(c: Config, data: seq<byte>, seed: seq<byte>)
    requires |data| >= 2
    ensures Answer(c, data, seed).None? <==> c.silent && data[1] == 0x10
    ensures Answer(c, data, seed).Some? ==>
              var p := Answer(c, data, seed).value;
              match Refusal(data)
              case Some(code) => p == [0x7F, data[1], code]
              case None => data[1] < 0xC0 && |p| >= 1 && p[0] == data[1] + 0x40
  {}

  /** A key request draws the seed into its answer, a key is just acknowledged. */
  lemma SeedIsSent(c: Config, data: seq<byte>, seed: seq<byte>)
    requires |data| >= 2 && data[1] == 0x27
    ensures var sub := Byte(data, 2, 0x01);
            Answer(c, data, seed) == Some(if sub % 2 == 1 then [0x67, sub] + seed else [0x67, sub])
  {
    var sub := Byte(data, 2, 0x01);
    assert [0x67] + ([sub] + seed) == [0x67, sub] + seed;
    assert [0x67] + ([sub] + []) == [0x67, sub];
  }

  /** A service with sub-function, or with a parameter identifier, repeats it after its own number. */
  lemma SubFunctionIsRepeated(c: Config, data: seq<byte>, seed: seq<byte>)
    requires |data| >= 2 && data[1] in {0x01, 0x09, 0x10, 0x11, 0x19, 0x27, 0x28, 0x3E, 0x85}
    requires Answer(c, data, seed).Some? && Refusal(data).None?
    ensures var p := Answer(c, data, seed).value;
            var missing := if data[1] in {0x01, 0x09, 0x28, 0x3E} then 0x00 else 0x01;
            |p| >= 2 && p[0] == data[1] + 0x40 && p[1] == Byte(data, 2, missing)
  {}

  /** A service with identifier repeats its two bytes in their order, a routine its sub-function and identifier. */
  lemma IdentifierIsRepeated(c: Config, data: seq<byte>, seed: seq<byte>)
    requires |data| >= 4 && data[1] in {0x22, 0x2E, 0x31} && Refusal(data).None?
    ensures var p := Answer(c, data, seed).value;
            && Answer(c, data, seed).Some? && |p| >= 3 && p[..3] == [data[1] + 0x40, data[2], data[3]]
            && (data[1] == 0x2E ==> |p| == 3)
            && (data[1] == 0x31 ==> p == [0x71, data[2], data[3], Byte(data, 4, 0x00)])
  {}

  /** The mask of a request for trouble codes comes back, and the whole mask where none was given. */
  lemma MaskIsRepeated(c: Config, data: seq<byte>, seed: seq<byte>)
    requires |data| >= 3 && data[1] == 0x19 && data[2] == 0x02
    ensures Answer(c, data, seed) == Some([0x59, 0x02, Byte(data, 3, 0xFF), 0x01, 0x00, 0x2F])
  {
    var m := Byte(data, 3, 0xFF);
    assert [0x59] + [0x02, m, 0x01, 0x00, 0x2F] == [0x59, 0x02, m, 0x01, 0x00, 0x2F];
  }

  // ---------------------------------------------------------------------
  // Which frames make a request, over whole runs
  // ---------------------------------------------------------------------

  /** The number of a frame's type, in its upper four bits. */
  function Kind(f: Frame): int {
    if f.data == [] then -1 else f.data[0] / 16
  }

  /** A frame that is not addressed to the ECU, has no data or has an unknown type changes nothing. */
  lemma OthersAreIgnored(c: Config, t: Task, i: Input)
    requires i.frame.id !in c.requestIds || i.frame.data == [] || Kind(i.frame) > 3
    ensures Receive(c, t, i) == t
  {}

  /** A complete single frame: the length in its lower four bits is at least one and all of it is there. */
  predicate CompleteSingle(c: Config, f: Frame) {
    f.id in c.requestIds && |f.data| >= 2 && Kind(f) == 0 && 1 <= f.data[0] % 16 <= |f.data| - 1
  }

  /** The request that a frame adds to those dispatched: its own data, or the payload it completes. */
  function NewRequests(c: Config, t: Task, f: Frame): seq<seq<byte>> {
    if CompleteSingle(c, f) then [f.data]
    else if f.id in c.requestIds && |f.data| >= 2 && (Kind(f) == 1 || Kind(f) == 2) then
      var payload := Take(t.rx, f.data).payload;
      if payload.Some? then [[|payload.value| % 16] + payload.value] else []
    else []
  }

  /** In every run a frame adds exactly these requests, each dispatched once. */
  lemma {:induction false} DispatchedExactly(c: Config, inputs: seq<Input>, i: Input)
    ensures Requests(Run(c, inputs + [i]).trace) ==
            Requests(Run(c, inputs).trace) + NewRequests(c, Run(c, inputs), i.frame)
  {
    var t := Run(c, inputs);
    assert (inputs + [i])[..|inputs|] == inputs;
    if IsFlowControl(c, i.frame) {
      SeqIsConsecutive(c, inputs);
      PushKeepsRequests(t, t.(trace := t.trace + [FlowControl]));
    } else if IsTransfer(c, i.frame) {
      var taken := Take(t.rx, i.frame.data);
      if taken.payload.Some? {
        var data := Shaped(taken.payload.value);
        DispatchTrace(c, t.(rx := taken.rx), data, true, i.seed);
        ProjectDispatched(c, t.trace, data, true, i.seed);
      }
    } else if IsSingle(c, i.frame) {
      DispatchTrace(c, t, i.frame.data, false, i.seed);
      ProjectDispatched(c, t.trace, i.frame.data, false, i.seed);
    }
  }

  /**
   In every run the frame that makes a request adds the request, its answer with the seed drawn
   for it, and the first frame of that answer; any other frame adds no response.
   */
  lemma {:induction false} AnsweredWithItsSeed(c: Config, inputs: seq<Input>, i: Input)
    ensures var before, after := Run(c, inputs).trace, Run(c, inputs + [i]).trace;
            var asked := NewRequests(c, Run(c, inputs), i.frame);
            if asked == [] then |before| <= |after| && forall k | |before| <= k < |after| :: !after[k].Response?
            else
              var data := asked[0];
              && |asked| == 1 && |data| >= 2
              && after == before + [Request(data, !CompleteSingle(c, i.frame))] +
                          match Answer(c, data, i.seed)
                          case None => []
                          case Some(p) => [Response(p), Sent(if |p| <= 7 then SingleFrame(p) else FirstFrame(p))]
  {
    var t := Run(c, inputs);
    assert (inputs + [i])[..|inputs|] == inputs;
    if CompleteSingle(c, i.frame) {
      DispatchTrace(c, t, i.frame.data, false, i.seed);
    } else if IsTransfer(c, i.frame) {
      var taken := Take(t.rx, i.frame.data);
      if taken.payload.Some? {
        DispatchTrace(c, t.(rx := taken.rx), Shaped(taken.payload.value), true, i.seed);
      }
    }
  }

  /** A request is followed at once by its one answer, unless it is session control in silent mode. */
  ghost predicate AnsweredAt(c: Config, trace: seq<Event>, k: nat)
    requires k < |trace| && trace[k].Request?
  {
    var data := trace[k].data;
    && |data| >= 2
    && (!(c.silent && data[1] == 0x10) ==>
          exists seed :: k + 1 < |trace| && Some(trace[k + 1]) == ResponseTo(c, data, seed))
  }

  function ResponseTo(c: Config, data: seq<byte>, seed: seq<byte>): Option<Event>
    requires |data| >= 2
  {
    var p := Answer(c, data, seed);
    if p.None? then None else Some(Response(p.value))
  }

  ghost predicate AllAnswered(c: Config, trace: seq<Event>) {
    forall k | 0 <= k < |trace| && trace[k].Request? :: AnsweredAt(c, trace, k)
  }

  lemma StillAnswered(c: Config, trace: seq<Event>, more: seq<Event>)
    requires AllAnswered(c, trace) && forall ev | ev in more :: !ev.Request?
    ensures AllAnswered(c, trace + more)
  {
    var all := trace + more;
    assert forall k | |trace| <= k < |all| :: all[k] in more;
    forall k | 0 <= k < |all| && all[k].Request? ensures AnsweredAt(c, all, k) {
      assert all[k] == trace[k] && AnsweredAt(c, trace, k);
      assert k + 1 < |trace| ==> all[k + 1] == trace[k + 1];
    }
  }

  lemma DispatchAnswers(c: Config, trace: seq<Event>, data: seq<byte>, multi: bool, seed: seq<byte>)
    requires AllAnswered(c, trace) && |data| >= 2
    ensures AllAnswered(c, trace + Dispatched(c, data, multi, seed))
  {
    var all := trace + Dispatched(c, data, multi, seed);
    forall k | 0 <= k < |all| && all[k].Request? ensures AnsweredAt(c, all, k) {
      if k < |trace| {
        assert all[k] == trace[k] && AnsweredAt(c, trace, k);
        assert k + 1 < |trace| ==> all[k + 1] == trace[k + 1];
      } else {
        assert k == |trace|;
        var answer := Answer(c, data, seed);
        assert answer.Some? ==> all[k + 1] == Response(answer.value);
        assert answer.Some? ==> Some(all[k + 1]) == ResponseTo(c, data, seed);
      }
    }
  }

  /** In every run each request is followed at once by its answer. */
  lemma {:induction false} EveryRequestIsAnswered(c: Config, inputs: seq<Input>)
    ensures AllAnswered(c, Run(c, inputs).trace)
  {
    if inputs != [] {
      var init, i := inputs[..|inputs| - 1], inputs[|inputs| - 1];
      var t := Run(c, init);
      EveryRequestIsAnswered(c, init);
      if IsFlowControl(c, i.frame) {
        var frames := ConsecutiveFrames(t.txBuffer, t.txSeq);
        StillAnswered(c, t.trace, [FlowControl]);
        StillAnswered(c, t.trace + [FlowControl], SentFrames(frames));
      } else if IsTransfer(c, i.frame) {
        var taken := Take(t.rx, i.frame.data);
        if taken.payload.Some? {
          DispatchTrace(c, t.(rx := taken.rx), Shaped(taken.payload.value), true, i.seed);
          DispatchAnswers(c, t.trace, Shaped(taken.payload.value), true, i.seed);
        }
      } else if IsSingle(c, i.frame) {
        DispatchTrace(c, t, i.frame.data, false, i.seed);
        DispatchAnswers(c, t.trace, i.frame.data, false, i.seed);
      }
    }
  }
}
