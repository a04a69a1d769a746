/**
 The simulated UDS/OBD ECU of task/task_uds_echo.py: services of ISO 14229-1
 over the ISO-TP transport, driven by whatever frames appear on the bus.
 */
module UdsEcu {
  import opened Common
  import opened IsoTp

  const SUB_FUNCTION_NOT_SUPPORTED: byte := 0x12
  const INCORRECT_MSG_LENGTH: byte := 0x13
  const REQUEST_OUT_OF_RANGE: byte := 0x31
  const SERVICE_NOT_SUPPORTED: byte := 0x11

  const DEFAULT_SESSION: byte := 0x01

  /** The constructor's arguments; characters of the VIN are single bytes. */
  datatype Config = Config(requestIds: set<nat>, silent: bool, vin: seq<byte>)

  datatype Frame = Frame(id: nat, data: seq<byte>)

  /** A frame from the bus, with the random bytes that a seed request would draw. */
  datatype Input = Input(frame: Frame, seed: seq<byte>)

  datatype Event =
    | Request(data: seq<byte>, multi: bool)
    | Response(payload: seq<byte>)
    | Sent(data: seq<byte>)
    | FlowControl

  datatype State = State(session: byte, unlocked: bool)

  datatype Task = Task(state: State, txBuffer: seq<byte>, txSeq: byte, rx: Rx, trace: seq<Event>)

  // ---------------------------------------------------------------------
  // Requests: data[0] is a length, data[1] the service, data[2..] its data
  // ---------------------------------------------------------------------

  function At(data: seq<byte>, i: nat, default: byte): byte {
    if i < |data| then data[i] else default
  }

  function Service(data: seq<byte>): byte
    requires |data| >= 2
  {
    data[1]
  }

  function Positive(sid: byte, data: seq<byte>): (p: seq<byte>)
    requires sid < 0xC0
  {
    [sid + 0x40] + data
  }

  function Negative(sid: byte, code: byte): seq<byte> {
    [0x7F, sid, code]
  }

  /** ASCII of "ARCHONZ_ECU" and of "ArchonZ_ECU". */
  const ECU_NAME: seq<byte> := [65, 82, 67, 72, 79, 78, 90, 95, 69, 67, 85]
  const ODX_NAME: seq<byte> := [65, 114, 99, 104, 111, 110, 90, 95, 69, 67, 85]
  const PART_NUMBER: seq<byte> := [0x30, 0x34, 0x45, 0x39, 0x30, 0x36, 0x33, 0x32, 0x33, 0x46, 0x20]

  /** Mode 0x01 */
  function CurrentData(data: seq<byte>): seq<byte> {
    var pid := At(data, 2, 0x00);
    Positive(0x01, [pid] +
                   if pid in {0x00, 0x20, 0x40, 0x60, 0x80, 0xA0, 0xC0} then [0xBF, 0xBF, 0xB9, 0x93]
                   else if pid == 0x01 then [0x00, 0x07, 0xE5, 0xE5]
                   else if pid == 0x05 then [120]
                   else if pid == 0x0C then [0x2E, 0xE0]
                   else if pid == 0x0D then [60]
                   else if pid == 0x2F then [178]
                   else if pid == 0x41 then [0x00, 0x0F, 0xFF, 0x00]
                   else if pid == 0x51 then [0x01]
                   else [0x00])
  }

  /** Mode 0x09 */
  function VehicleInfo(c: Config, data: seq<byte>): seq<byte> {
    var pid := At(data, 2, 0x00);
    Positive(0x09, [pid] +
                   if pid == 0x00 then [0x55, 0x00, 0x00, 0x00]
                   else if pid == 0x02 then [0x01] + c.vin
                   else if pid == 0x0A then [0x01] + ECU_NAME
                   else [0x00])
  }

  function ReadDtcInfo(data: seq<byte>): seq<byte> {
    var sub := At(data, 2, 0x01);
    if sub == 0x01 then Positive(0x19, [sub, 0xFF, 0x00, 0x02])
    else if sub == 0x02 then Positive(0x19, [sub, At(data, 3, 0xFF), 0x01, 0x00, 0x2F])
    else if sub == 0x06 then Positive(0x19, [sub, 0x00])
    else if sub == 0x0A then Positive(0x19, [sub, 0xFF, 0x01, 0x00, 0x2F])
    else Negative(0x19, SUB_FUNCTION_NOT_SUPPORTED)
  }

  function ReadDataById(c: Config, data: seq<byte>): seq<byte> {
    if |data| < 4 then Negative(0x22, INCORRECT_MSG_LENGTH)
    else
      var did := [data[2], data[3]];
      if did == [0xF1, 0x90] then Positive(0x22, did + c.vin)
      else if did == [0xF1, 0x87] then Positive(0x22, did + PART_NUMBER)
      else if did == [0xF1, 0x89] then Positive(0x22, did + [0x38, 0x34, 0x31, 0x30])
      else if did == [0xF1, 0x91] then Positive(0x22, did + [0x48, 0x57, 0x30, 0x31])
      else if did == [0xF1, 0x9E] then Positive(0x22, did + ODX_NAME)
      else Negative(0x22, REQUEST_OUT_OF_RANGE)
  }

  function RoutineControl(data: seq<byte>): seq<byte> {
    if |data| < 4 then Negative(0x31, INCORRECT_MSG_LENGTH)
    else Positive(0x31, [data[2], data[3], At(data, 4, 0x00)])
  }

  function WriteDataById(data: seq<byte>): seq<byte> {
    if |data| < 4 then Negative(0x2E, INCORRECT_MSG_LENGTH)
    else Positive(0x2E, [data[2], data[3]])
  }

  /** A service that echoes its sub-function if that is one of those it supports. */
  function Echo(sid: byte, sub: byte, supported: set<byte>, extra: seq<byte>): seq<byte>
    requires sid < 0xC0
  {
    if sub in supported then Positive(sid, [sub] + extra)
    else Negative(sid, SUB_FUNCTION_NOT_SUPPORTED)
  }

  function EcuReset(data: seq<byte>): seq<byte> {
    var sub := At(data, 2, 0x01);
    Echo(0x11, sub, {0x01, 0x02, 0x03, 0x04, 0x05}, if sub <= 0x03 then [0x0F] else [])
  }

  /** Odd sub-functions ask for a seed; even ones send a key, and any key is accepted. */
  function SecurityAccess(data: seq<byte>, seed: seq<byte>): seq<byte> {
    var sub := At(data, 2, 0x01);
    Positive(0x27, [sub] + if sub % 2 == 1 then seed else [])
  }

  /** Either the positive response of a service or a negative response that names it. */
  predicate AnswersTo(sid: byte, p: seq<byte>) {
    || (sid < 0xC0 && |p| >= 1 && p[0] == sid + 0x40)
    || (|p| == 3 && p[0] == 0x7F && p[1] == sid)
  }

  /** The payload of the answer, if the request is answered at all. */
  function Answer(c: Config, data: seq<byte>, seed: seq<byte>): (answer: Option<seq<byte>>)
    requires |data| >= 2
    ensures answer.None? <==> c.silent && Service(data) == 0x10
    ensures answer.Some? ==> AnswersTo(Service(data), answer.value)
    ensures answer.Some? && |seed| == 4 ==> |answer.value| <= if |c.vin| <= 11 then 14 else |c.vin| + 3
  {
    var sid := Service(data);
    if sid == 0x10 && c.silent then None
    else Some(
           if sid == 0x01 then CurrentData(data)
           else if sid == 0x02 then Positive(sid, [0x01, 0x01])
           else if sid == 0x03 then Positive(sid, [0x02, 0x01, 0x00, 0x01, 0x02])
           else if sid == 0x04 || sid == 0x14 then Positive(sid, [])
           else if sid == 0x07 then Positive(sid, [0x01, 0x02, 0x03])
           else if sid == 0x09 then VehicleInfo(c, data)
           else if sid == 0x0A then Positive(sid, [0x00])
           else if sid == 0x10 then
             Echo(sid, At(data, 2, 0x01), {0x01, 0x02, 0x03, 0x04}, [0x00, 0x32, 0x01, 0xF4])
           else if sid == 0x11 then EcuReset(data)
           else if sid == 0x19 then ReadDtcInfo(data)
           else if sid == 0x22 then ReadDataById(c, data)
           else if sid == 0x27 then SecurityAccess(data, seed)
           else if sid == 0x28 then Echo(sid, At(data, 2, 0x00), {0x00, 0x01, 0x02, 0x03}, [])
           else if sid == 0x2E then WriteDataById(data)
           else if sid == 0x31 then RoutineControl(data)
           else if sid == 0x3E then Positive(sid, [At(data, 2, 0x00)])
           else if sid == 0x85 then Echo(sid, At(data, 2, 0x01), {0x01, 0x02}, [])
           else Negative(sid, SERVICE_NOT_SUPPORTED))
  }

  /** What the request does to session and security access. */
  function Effect(c: Config, s: State, data: seq<byte>): State
    requires |data| >= 2
  {
    var sub := At(data, 2, 0x01);
    if Service(data) == 0x10 && !c.silent && sub in {0x01, 0x02, 0x03, 0x04} then s.(session := sub)
    else if Service(data) == 0x11 && sub in {0x01, 0x02, 0x03} then State(DEFAULT_SESSION, false)
    else if Service(data) == 0x27 && sub % 2 == 0 then s.(unlocked := true)
    else s
  }

  // ---------------------------------------------------------------------
  // One frame from the bus at a time
  // ---------------------------------------------------------------------

  function SentFrames(frames: seq<seq<byte>>): (events: seq<Event>)
    ensures |events| == |frames|
  {
    seq(|frames|, i requires 0 <= i < |frames| => Sent(frames[i]))
  }

  function Send(t: Task, p: seq<byte>): Task {
    var logged := t.trace + [Response(p)];
    if |p| <= 7 then t.(trace := logged + [Sent(SingleFrame(p))])
    else t.(txBuffer := p[6..], txSeq := 0x21, trace := logged + [Sent(FirstFrame(p))])
  }

  function Push(t: Task): Task {
    var frames := ConsecutiveFrames(t.txBuffer, t.txSeq);
    t.(txBuffer := [],
       txSeq := SeqAfter(t.txBuffer, t.txSeq),
       trace := t.trace + SentFrames(frames))
  }

  function SeqAfter(rest: seq<byte>, s: byte): byte
    decreases |rest|
  {
    if rest == [] then s else SeqAfter(Rest(rest), NextSeq(s))
  }

  function Dispatch(c: Config, t: Task, data: seq<byte>, multi: bool, seed: seq<byte>): Task
    requires |data| >= 2
  {
    var handled := t.(state := Effect(c, t.state, data), trace := t.trace + [Request(data, multi)]);
    match Answer(c, data, seed)
    case None => handled
    case Some(p) => Send(handled, p)
  }

  /** A reassembled payload in the shape of a single frame. */
  function Shaped(p: seq<byte>): (data: seq<byte>)
    ensures |data| == |p| + 1 && data[1..] == p
  {
    [|p| % 16] + p
  }

  predicate Monitored(c: Config, f: Frame) {
    |f.data| > 0 && f.id in c.requestIds
  }

  predicate IsFlowControl(c: Config, f: Frame) {
    Monitored(c, f) && FrameType(f.data) == 3
  }

  predicate IsTransfer(c: Config, f: Frame) {
    Monitored(c, f) && IsSegment(f.data)
  }

  predicate IsSingle(c: Config, f: Frame) {
    Monitored(c, f) && |f.data| >= 2 && FrameType(f.data) == 0 && 1 <= f.data[0] % 16 < |f.data|
  }

  function Receive(c: Config, t: Task, i: Input): Task {
    var f := i.frame;
    if IsFlowControl(c, f) then
      var noted := t.(trace := t.trace + [FlowControl]);
      if t.txBuffer == [] then noted else Push(noted)
    else if IsTransfer(c, f) then
      var taken := Take(t.rx, f.data);
      var received := t.(rx := taken.rx);
      if taken.payload.None? then received
      else Dispatch(c, received, Shaped(taken.payload.value), true, i.seed)
    else if IsSingle(c, f) then Dispatch(c, t, f.data, false, i.seed)
    else t
  }

  const Initial: Task := Task(State(DEFAULT_SESSION, false), [], 0, Idle, [])

  function Run(c: Config, inputs: seq<Input>): Task {
    if inputs == [] then Initial
    else Receive(c, Run(c, inputs[..|inputs| - 1]), inputs[|inputs| - 1])
  }

  /** Sending one frame leaves the remaining frames to be sent. */
  lemma {:induction false} PushedOne(sent: seq<seq<byte>>, rest: seq<byte>, s: byte)
    requires rest != []
    ensures var cf := ConsecutiveFrame(s, rest);
            sent + [cf] + ConsecutiveFrames(Rest(rest), NextSeq(s)) == sent + ConsecutiveFrames(rest, s)
    ensures SeqAfter(Rest(rest), NextSeq(s)) == SeqAfter(rest, s)
  {
    var cf, others := ConsecutiveFrame(s, rest), ConsecutiveFrames(Rest(rest), NextSeq(s));
    assert ConsecutiveFrames(rest, s) == [cf] + others;
    assert sent + [cf] + others == sent + ([cf] + others);
  }

  lemma SentOne(sent: seq<seq<byte>>, cf: seq<byte>)
    ensures SentFrames(sent + [cf]) == SentFrames(sent) + [Sent(cf)]
  {}

  // ---------------------------------------------------------------------
  // The object whose fields the source updates
  // ---------------------------------------------------------------------

  class UdsEchoTask {
    const config: Config
    var session: byte
    var securityUnlocked: bool
    var mfBuffer: seq<byte>
    var mfSeq: byte
    var rxMfPending: Option<seq<byte>>
    var rxMfTotal: nat
    ghost var trace: seq<Event>

    ghost function Model(): Task
      reads this
    {
      Task(State(session, securityUnlocked), mfBuffer, mfSeq,
           if rxMfPending.None? then Idle else Pending(rxMfPending.value, rxMfTotal), trace)
    }

    constructor (c: Config)
      ensures config == c && Model() == Initial
    {
      config := c;
      session, securityUnlocked := DEFAULT_SESSION, false;
      mfBuffer, mfSeq := [], 0;
      rxMfPending, rxMfTotal := None, 0;
      trace := [];
    }

    method SendFrame(data: seq<byte>)
      modifies this`trace
      ensures Model() == old(Model()).(trace := old(trace) + [Sent(data)])
    {
      trace := trace + [Sent(data)];
    }

    method IsotpSend(payload: seq<byte>)
      modifies this
      ensures Model() == Send(old(Model()), payload)
    {
      trace := trace + [Response(payload)];
      var size := |payload|;
      if size <= 7 {
        SendFrame([size] + payload + Zeros(7 - size));
      } else {
        var high: byte := 0x10 + (size / 256) % 16;
        SendFrame([high, size % 256] + payload[..6]);
        mfBuffer := payload[6..];
        mfSeq := 0x21;
      }
    }

    /** Sends the next consecutive frame. */
    method PushFrame()
      requires mfBuffer != []
      modifies this`mfBuffer, this`mfSeq, this`trace
      ensures mfBuffer == Rest(old(mfBuffer)) && mfSeq == NextSeq(old(mfSeq))
      ensures trace == old(trace) + [Sent(ConsecutiveFrame(old(mfSeq), old(mfBuffer)))]
    {
      var chunk := Slice(mfBuffer, 0, 7);
      mfBuffer := mfBuffer[|chunk|..];
      var cf := [mfSeq] + chunk;
      if |cf| < 8 {
        cf := cf + Zeros(8 - |cf|);
      }
      SendFrame(cf);
      mfSeq := (mfSeq % 16 + 1) % 16 + 0x20;
      assert cf == ConsecutiveFrame(old(mfSeq), old(mfBuffer));
    }

    /** Sends everything that is left, whatever the flow control frame said. */
    method PushConsecutiveFrames()
      modifies this
      ensures Model() == Push(old(Model()))
    {
      ghost var sent: seq<seq<byte>> := [];
      while mfBuffer != []
        invariant sent + ConsecutiveFrames(mfBuffer, mfSeq) == ConsecutiveFrames(old(mfBuffer), old(mfSeq))
        invariant SeqAfter(mfBuffer, mfSeq) == SeqAfter(old(mfBuffer), old(mfSeq))
        invariant trace == old(trace) + SentFrames(sent)
        invariant Model() == old(Model()).(txBuffer := mfBuffer, txSeq := mfSeq, trace := trace)
        decreases |mfBuffer|
      {
        ghost var cf := ConsecutiveFrame(mfSeq, mfBuffer);
        PushedOne(sent, mfBuffer, mfSeq);
        SentOne(sent, cf);
        PushFrame();
        sent := sent + [cf];
      }
    }

    method HandleDiagnosticSessionControl(data: seq<byte>, seed: seq<byte>)
      requires |data| >= 2 && Service(data) == 0x10
      modifies this
      ensures Model() == (var handled := old(Model()).(state := Effect(config, old(Model()).state, data));
                          var answer := Answer(config, data, seed);
                          if answer.None? then handled else Send(handled, answer.value))
    {
      if config.silent {
        return;
      }
      var sub := At(data, 2, 0x01);
      if sub == 0x01 || sub == 0x02 || sub == 0x03 || sub == 0x04 {
        session := sub;
        assert [sub, 0x00, 0x32, 0x01, 0xF4] == [sub] + [0x00, 0x32, 0x01, 0xF4];
        IsotpSend(Positive(0x10, [sub, 0x00, 0x32, 0x01, 0xF4]));
      } else {
        IsotpSend(Negative(0x10, SUB_FUNCTION_NOT_SUPPORTED));
      }
    }

    method HandleEcuReset(data: seq<byte>)
      requires |data| >= 2 && Service(data) == 0x11
      modifies this
      ensures Model() == Send(old(Model()).(state := Effect(config, old(Model()).state, data)), EcuReset(data))
    {
      var sub := At(data, 2, 0x01);
      if sub == 0x01 || sub == 0x02 || sub == 0x03 {
        session := DEFAULT_SESSION;
        securityUnlocked := false;
        assert [sub, 0x0F] == [sub] + [0x0F];
        IsotpSend(Positive(0x11, [sub, 0x0F]));
      } else if sub == 0x04 || sub == 0x05 {
        assert [sub] == [sub] + [];
        IsotpSend(Positive(0x11, [sub]));
      } else {
        IsotpSend(Negative(0x11, SUB_FUNCTION_NOT_SUPPORTED));
      }
    }

    method HandleSecurityAccess(data: seq<byte>, seed: seq<byte>)
      requires |data| >= 2 && Service(data) == 0x27
      modifies this
      ensures Model() ==
              Send(old(Model()).(state := Effect(config, old(Model()).state, data)), SecurityAccess(data, seed))
    {
      var sub := At(data, 2, 0x01);
      if sub % 2 == 1 {
        IsotpSend(Positive(0x27, [sub] + seed));
      } else {
        securityUnlocked := true;
        assert [sub] == [sub] + [];
        IsotpSend(Positive(0x27, [sub]));
      }
    }

    method DispatchRequest(data: seq<byte>, multi: bool, seed: seq<byte>)
      requires |data| >= 2
      modifies this
      ensures Model() == Dispatch(config, old(Model()), data, multi, seed)
    {
      trace := trace + [Request(data, multi)];
      if Service(data) == 0x10 {
        HandleDiagnosticSessionControl(data, seed);
      } else if Service(data) == 0x11 {
        HandleEcuReset(data);
      } else if Service(data) == 0x27 {
        HandleSecurityAccess(data, seed);
      } else {
        IsotpSend(Answer(config, data, seed).value);
      }
    }

    method DispatchReassembled(seed: seq<byte>)
      requires rxMfPending.Some?
      modifies this
      ensures Model() == (var taken := Collect(old(rxMfPending).value, old(rxMfTotal));
                          var received := old(Model()).(rx := taken.rx);
                          if taken.payload.None? then received
                          else Dispatch(config, received, Shaped(taken.payload.value), true, seed))
    {
      if |rxMfPending.value| < rxMfTotal {
        return;
      }
      var payload := rxMfPending.value[..rxMfTotal];
      rxMfPending := None;
      rxMfTotal := 0;
      if |payload| < 2 {
        return;
      }
      DispatchRequest([|payload| % 16] + payload, true, seed);
    }

    method OnMessageReceived(f: Frame, seed: seq<byte>)
      modifies this
      ensures Model() == Receive(config, old(Model()), Input(f, seed))
    {
      if |f.data| == 0 {
        return;
      }
      if f.id in config.requestIds && FrameType(f.data) == 3 {
        trace := trace + [FlowControl];
        if mfBuffer != [] {
          PushConsecutiveFrames();
        }
        return;
      }
      if f.id !in config.requestIds || |f.data| < 2 {
        return;
      }
      if FrameType(f.data) == 1 {
        var high: int, low: int := f.data[0], f.data[1];
        rxMfTotal := high % 16 * 256 + low;
        rxMfPending := Some(Slice(f.data, 2, 8));
        DispatchReassembled(seed);
        return;
      }
      if FrameType(f.data) == 2 && rxMfPending.Some? {
        rxMfPending := Some(rxMfPending.value + Slice(f.data, 1, 8));
        DispatchReassembled(seed);
        return;
      }
      if FrameType(f.data) != 0 {
        return;
      }
      var length := f.data[0] % 16;
      if length < 1 || |f.data| < length + 1 {
        return;
      }
      DispatchRequest(f.data, false, seed);
    }
  }
}
