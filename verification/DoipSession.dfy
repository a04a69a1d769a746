/**
 A TCP session of the DoIP server: a function of the chunks it reads. Routing
 must be activated first; then each diagnostic message is acknowledged and
 answered, or refused because its target is not known.
 */
module DoipSession {
  import opened Common
  import opened DoipCodec
  import opened DoipUds

  const SUCCESSFUL_ACTIVATION: byte := 0x10
  const UNKNOWN_TARGET_ADDR: byte := 0x03
  const MESSAGE_ACKNOWLEDGE: byte := 0x00

  /** A chunk this long is never parsed; every third one closes the connection. */
  const LONG_CHUNK: nat := 50
  const STOP_COUNT: nat := 3

  datatype Config = Config(discovery: int, targets: set<int>)

  /** What reading a value gives; Failure is any error other than an unknown identifier. */
  datatype Read = Value(data: seq<byte>) | NotFound | Failure

  datatype Session = Session(
    activated: bool,
    stops: nat,
    closed: bool,             // the writer is closed
    over: bool,
    out: seq<Message>)

  function Begin(stops: nat): Session {
    Session(false, stops, false, false, [])
  }

  /** Writing to a closed connection is an error, which ends the session. */
  function Write(s: Session, m: Message): Session {
    if s.closed then s.(over := true) else s.(out := s.out + [m])
  }

  /** The user data of the answer, unless reading a value fails. */
  function UdsAnswer(userdata: seq<byte>, read: Read): (r: Option<seq<byte>>)
    requires userdata != []
    ensures r.Some? ==> |r.value| >= 2
    ensures r.None? ==> read.Failure?
  {
    match ParseService(userdata)
    case Err(NotSupported) => Some(RenderService(ErrorReply(userdata[0], SERVICE_NOT_SUPPORTED, false), true))
    case Err(_) => Some(RenderService(ErrorReply(userdata[0], INVALID_FORMAT, false), true))
    case Ok(u) =>
      match u
      case TesterPresent(_, _) => Some(RenderService(u, true))
      case ReadData(identifier, _, _) =>
        (match read
         case Value(data) => Some(RenderService(ReadData(identifier, Some(data), true), true))
         case NotFound => Some(RenderService(ErrorReply(READ_DATA, REQUEST_OUT_OF_RANGE, false), true))
         case Failure => None)
      case ErrorReply(_, _, _) => Some(RenderService(ErrorReply(READ_DATA, SERVICE_NOT_SUPPORTED, false), true))
  }

  function HandleDiagnostic(c: Config, s: Session, r: Message, read: Read): Session
    requires r.Diagnostic? && r.userdata != []
  {
    if s.closed then s.(over := true)
    else if r.target !in c.targets then Write(s, DiagnosticNack(r.source, r.target, UNKNOWN_TARGET_ADDR))
    else
      var acknowledged := Write(s, DiagnosticAck(r.source, r.target, MESSAGE_ACKNOWLEDGE));
      match UdsAnswer(r.userdata, read)
      case None => acknowledged.(over := true)
      case Some(answer) => Write(acknowledged, Diagnostic(r.source, r.target, answer))
  }

  function HandleRequest(c: Config, s: Session, m: Message, read: Read): Session
    requires m.Diagnostic? ==> m.userdata != []
  {
    if !s.activated then
      if m.RoutingActivationRequest? then
        Write(s, RoutingActivationResponse(m.source, c.discovery, SUCCESSFUL_ACTIVATION)).(activated := !s.closed)
      else s.(over := true)
    else if m.Diagnostic? then HandleDiagnostic(c, s, m, read)
    else s
  }

  function HandleChunk(c: Config, s: Session, d: seq<byte>, read: Read): Session {
    if s.over then s
    else if d == [] then s.(over := true)
    else if |d| >= LONG_CHUNK then
      if s.stops + 1 == STOP_COUNT then s.(stops := 0, closed := true) else s.(stops := s.stops + 1)
    else
      match Parse(d)
      case Err(_) => s.(over := true)
      case Ok(p) =>
        ParsedAddresses(d);
        HandleRequest(c, s, p.message, read)
  }

  datatype Input = Input(chunk: seq<byte>, read: Read)

  function Run(c: Config, stops: nat, inputs: seq<Input>): Session {
    if inputs == [] then Begin(stops)
    else
      var last := inputs[|inputs| - 1];
      HandleChunk(c, Run(c, stops, inputs[..|inputs| - 1]), last.chunk, last.read)
  }

  // ---------------------------------------------------------------------
  // What is taken up, told from the chunks alone
  // ---------------------------------------------------------------------

  /** A message that was read, with the value that the simulator then holds for it. */
  datatype Request = Request(message: Message, read: Read)

  /**
   The messages of a connection in order: those of the short chunks, up to the first chunk that is
   empty or no message, and before the long chunk that uses up how many are still let pass.
   */
  function Understood(passes: int, inputs: seq<Input>): seq<Request>
    decreases |inputs|
  {
    if inputs == [] || inputs[0].chunk == [] then []
    else
      var d, rest := inputs[0].chunk, inputs[1..];
      if |d| >= 50 then if passes == 1 then [] else Understood(passes - 1, rest)
      else if Parse(d).Err? then []
      else [Request(Parse(d).value.message, inputs[0].read)] + Understood(passes, rest)
  }

  function Diagnostics(requests: seq<Request>): seq<Request> {
    if requests == [] then []
    else if !requests[0].message.Diagnostic? then Diagnostics(requests[1..])
    else [requests[0]] + Diagnostics(requests[1..])
  }

  /** One of the server's targets is asked for a value, and reading it fails. */
  predicate ReadFails(c: Config, r: Request) {
    && r.message.Diagnostic? && r.message.target in c.targets && r.read.Failure?
    && ParseService(r.message.userdata).Ok? && ParseService(r.message.userdata).value.ReadData?
  }

  /** The requests up to the first whose value cannot be read, that one included. */
  function UntilReadFails(c: Config, requests: seq<Request>): seq<Request> {
    if requests == [] then []
    else [requests[0]] + if ReadFails(c, requests[0]) then [] else UntilReadFails(c, requests[1..])
  }

  // ---------------------------------------------------------------------
  // The grammar of what is written
  // ---------------------------------------------------------------------

  /** A message back to the sender, whose user data has the meaning of an answer to this very request. */
  predicate IsReplyTo(r: Request, m: Message) {
    && r.message.Diagnostic? && r.message.userdata != []
    && m.Diagnostic? && m.target == r.message.source && m.source == r.message.target
    && ParseService(m.userdata) == Ok(Meaning(r.message.userdata, r.read))
  }

  /** One block for each request in order: a refusal, or an acknowledgement and, unless reading fails, a reply. */
  predicate Blocks(c: Config, requests: seq<Request>, out: seq<Message>) {
    if requests == [] then out == []
    else
      var m := requests[0].message;
      && m.Diagnostic? && out != []
      && if m.target !in c.targets then
           && out[0] == DiagnosticNack(m.source, m.target, 0x03)
           && Blocks(c, requests[1..], out[1..])
         else
           && out[0] == DiagnosticAck(m.source, m.target, 0x00)
           && if ReadFails(c, requests[0]) then |requests| == |out| == 1
              else |out| >= 2 && IsReplyTo(requests[0], out[1]) && Blocks(c, requests[1..], out[2..])
  }

  /**
   What is written on a connection. Nothing, unless its first message asks for routing; then the
   activation, addressed to the asking client, and the blocks of the diagnostic messages after it.
   */
  predicate Transcript(c: Config, stops: nat, inputs: seq<Input>, out: seq<Message>) {
    var read := Understood(3 - stops, inputs);
    if read == [] || !read[0].message.RoutingActivationRequest? then out == []
    else
      && out != []
      && out[0] == RoutingActivationResponse(read[0].message.source, c.discovery, 0x10)
      && Blocks(c, UntilReadFails(c, Diagnostics(read[1..])), out[1..])
  }

  /** The meaning a client finds in the answer to a request: the value read, an echo, or the reason for refusing. */
  function Meaning(userdata: seq<byte>, read: Read): Service
    requires userdata != []
  {
    match ParseService(userdata)
    case Err(NotSupported) => ErrorReply(userdata[0], 0x11, true)
    case Err(_) => ErrorReply(userdata[0], 0x13, true)
    case Ok(TesterPresent(suppress, _)) => TesterPresent(suppress, true)
    case Ok(ReadData(identifier, _, _)) =>
      if read.Value? then ReadData(identifier, Some(read.data), true)
      else ErrorReply(0x22, 0x31, true)
    case Ok(ErrorReply(_, _, _)) => ErrorReply(0x22, 0x11, true)
  }

  /** Parsing the answer gives that meaning, with the identifier and the value unchanged. */
  lemma AnswerIsUnderstood(userdata: seq<byte>, read: Read)
    requires userdata != [] && UdsAnswer(userdata, read).Some?
    ensures ParseService(UdsAnswer(userdata, read).value) == Ok(Meaning(userdata, read))
  {
    var meaning := Meaning(userdata, read);
    ServiceRoundTrip(meaning, true);
    match ParseService(userdata)
    case Ok(ReadData(identifier, _, _)) =>
      TwoBytesAreShort(userdata, 1);
      assert Slice(userdata, 1, 3) == userdata[1..][..2];
      assert AsReceived(meaning, true) == meaning;
    case _ =>
  }

  /** What one diagnostic message adds to the output. */
  function Block(c: Config, r: Request): seq<Message>
    requires r.message.Diagnostic? && r.message.userdata != []
  {
    var m := r.message;
    if m.target !in c.targets then [DiagnosticNack(m.source, m.target, UNKNOWN_TARGET_ADDR)]
    else
      [DiagnosticAck(m.source, m.target, MESSAGE_ACKNOWLEDGE)] +
      match UdsAnswer(m.userdata, r.read)
      case None => []
      case Some(answer) => [Diagnostic(m.source, m.target, answer)]
  }

  lemma {:induction false} BlockThenBlocks(c: Config, r: Request, requests: seq<Request>, out: seq<Message>)
    requires r.message.Diagnostic? && r.message.userdata != []
    requires if ReadFails(c, r) then requests == [] && out == [] else Blocks(c, requests, out)
    ensures Blocks(c, [r] + requests, Block(c, r) + out)
  {
    var m, block := r.message, Block(c, r);
    assert ([r] + requests)[1..] == requests;
    assert (block + out)[|block|..] == out;
    if m.target in c.targets && UdsAnswer(m.userdata, r.read).Some? {
      AnswerIsUnderstood(m.userdata, r.read);
    }
  }

  function RunFrom(c: Config, s: Session, inputs: seq<Input>): Session
    decreases |inputs|
  {
    if inputs == [] then s
    else RunFrom(c, HandleChunk(c, s, inputs[0].chunk, inputs[0].read), inputs[1..])
  }

  lemma {:induction false} RunFromRun(c: Config, stops: nat, done: seq<Input>, inputs: seq<Input>)
    ensures RunFrom(c, Run(c, stops, done), inputs) == Run(c, stops, done + inputs)
    decreases |inputs|
  {
    if inputs == [] {
      assert done + inputs == done;
    } else {
      var more := done + [inputs[0]];
      assert more[..|done|] == done && more + inputs[1..] == done + inputs;
      RunFromRun(c, stops, more, inputs[1..]);
    }
  }

  /** A session that is over or closed writes nothing more. */
  lemma {:induction false} SilentAtTheEnd(c: Config, s: Session, inputs: seq<Input>)
    requires s.over || s.closed
    ensures RunFrom(c, s, inputs).out == s.out
    decreases |inputs|
  {
    if inputs != [] {
      SilentAtTheEnd(c, HandleChunk(c, s, inputs[0].chunk, inputs[0].read), inputs[1..]);
    }
  }

  /** The output goes on with the blocks of these requests. */
  ghost predicate GoesOn(c: Config, s: Session, requests: seq<Request>, out: seq<Message>) {
    && |s.out| <= |out| && out[..|s.out|] == s.out
    && Blocks(c, UntilReadFails(c, requests), out[|s.out|..])
  }

  /** The output goes on rightly from here, or has come to its end. */
  ghost predicate GoesOnOrEnds(c: Config, s: Session, requests: seq<Request>, out: seq<Message>) {
    if s.over || s.closed then out == s.out else GoesOn(c, s, requests, out)
  }

  /** The diagnostic messages among those that the rest of the chunks holds. */
  function ToCome(stops: nat, inputs: seq<Input>): seq<Request> {
    Diagnostics(Understood(3 - stops, inputs))
  }

  predicate HoldsMessage(d: seq<byte>) {
    0 < |d| < 50 && Parse(d).Ok?
  }

  lemma ToComeFirst(stops: nat, inputs: seq<Input>)
    requires inputs != [] && HoldsMessage(inputs[0].chunk)
    ensures var r := Request(Parse(inputs[0].chunk).value.message, inputs[0].read);
            var others := ToCome(stops, inputs[1..]);
            ToCome(stops, inputs) == if r.message.Diagnostic? then [r] + others else others
  {
    var r := Request(Parse(inputs[0].chunk).value.message, inputs[0].read);
    var others := Understood(3 - stops, inputs[1..]);
    assert ([r] + others)[1..] == others;
  }

  lemma MessageIsHandled(c: Config, s: Session, d: seq<byte>, read: Read)
    requires !s.over && !s.closed && HoldsMessage(d)
    ensures var m, next := Parse(d).value.message, HandleChunk(c, s, d, read);
            && (m.Diagnostic? ==> m.userdata != [])
            && next == HandleRequest(c, s, m, read) && !next.closed && next.stops == s.stops
  {
    ParsedAddresses(d);
  }

  lemma OtherChunk(c: Config, s: Session, d: seq<byte>, read: Read)
    requires !s.over && !HoldsMessage(d)
    ensures HandleChunk(c, s, d, read) ==
            if |d| < 50 then s.(over := true)
            else if s.stops == 2 then s.(stops := 0, closed := true)
            else s.(stops := s.stops + 1)
  {}

  lemma ToComeLater(stops: nat, inputs: seq<Input>)
    requires inputs != [] && !HoldsMessage(inputs[0].chunk)
    ensures ToCome(stops, inputs) ==
            if |inputs[0].chunk| < 50 || stops == 2 then [] else ToCome(stops + 1, inputs[1..])
  {}

  lemma {:induction false} ActiveSession(c: Config, s: Session, inputs: seq<Input>)
    requires s.activated && !s.over && !s.closed
    ensures GoesOn(c, s, ToCome(s.stops, inputs), RunFrom(c, s, inputs).out)
    decreases |inputs|
  {
    if inputs != [] {
      var i, rest := inputs[0], inputs[1..];
      var next := HandleChunk(c, s, i.chunk, i.read);
      var out := RunFrom(c, next, rest).out;
      if next.over || next.closed {
        SilentAtTheEnd(c, next, rest);
      } else {
        ActiveSession(c, next, rest);
      }
      assert GoesOnOrEnds(c, next, ToCome(next.stops, rest), out);
      if HoldsMessage(i.chunk) {
        MessageIsHandled(c, s, i.chunk, i.read);
        ToComeFirst(s.stops, inputs);
        ActiveMessage(c, s, Request(Parse(i.chunk).value.message, i.read), next, ToCome(s.stops, rest), out);
      } else {
        OtherChunk(c, s, i.chunk, i.read);
        ToComeLater(s.stops, inputs);
      }
    }
  }

  lemma ActiveMessage(
      c: Config, s: Session, r: Request, next: Session, others: seq<Request>, out: seq<Message>)
    requires s.activated && !s.over && !s.closed && (r.message.Diagnostic? ==> r.message.userdata != [])
    requires next == HandleRequest(c, s, r.message, r.read)
    requires GoesOnOrEnds(c, next, others, out)
    ensures GoesOn(c, s, if r.message.Diagnostic? then [r] + others else others, out)
  {
    if r.message.Diagnostic? {
      ActiveDiagnostic(c, s, r, others, out);
    }
  }

  lemma ActiveDiagnostic(c: Config, s: Session, r: Request, others: seq<Request>, out: seq<Message>)
    requires s.activated && !s.over && !s.closed && r.message.Diagnostic? && r.message.userdata != []
    requires var next := HandleDiagnostic(c, s, r.message, r.read);
             if next.over then out == next.out else GoesOn(c, next, others, out)
    ensures GoesOn(c, s, [r] + others, out)
  {
    var next := HandleDiagnostic(c, s, r.message, r.read);
    var block := Block(c, r);
    assert next.out == s.out + block;
    assert next.over <==> ReadFails(c, r);
    var tail := out[|next.out|..];
    assert out == s.out + block + tail;
    assert out[|s.out|..] == block + tail;
    assert ([r] + others)[1..] == others;
    BlockThenBlocks(c, r, if ReadFails(c, r) then [] else UntilReadFails(c, others), tail);
  }

  /** Before the activation, too, the first message decides. */
  lemma {:induction false} InactiveSession(c: Config, s: Session, inputs: seq<Input>)
    requires !s.activated && !s.over && !s.closed && s.out == []
    ensures Transcript(c, s.stops, inputs, RunFrom(c, s, inputs).out)
    decreases |inputs|
  {
    if inputs != [] {
      var i, rest := inputs[0], inputs[1..];
      var next := HandleChunk(c, s, i.chunk, i.read);
      if next.over || next.closed {
        SilentAtTheEnd(c, next, rest);
      } else if next.activated {
        ActiveSession(c, next, rest);
        var r := Request(Parse(i.chunk).value.message, i.read);
        var others := Understood(3 - s.stops, rest);
        assert ([r] + others)[1..] == others;
      } else {
        InactiveSession(c, next, rest);
      }
    }
  }

  /**
   For every sequence of chunks, the output is empty unless the first message of the connection
   asks for routing. Then it is the one activation response to that client, followed by a block
   for each diagnostic message after it, in order and with none left out: a single refusal for
   an unknown target, or else an acknowledgement and one reply, with swapped addresses and the
   meaning of the request. A reply is missing only where a value cannot be read, and then last.
   */
  lemma {:induction false} SessionFollowsGrammar(c: Config, stops: nat, inputs: seq<Input>)
    ensures Transcript(c, stops, inputs, Run(c, stops, inputs).out)
  {
    RunFromRun(c, stops, [], inputs);
    assert [] + inputs == inputs;
    InactiveSession(c, Begin(stops), inputs);
  }

  /** The long chunks up to now, added to those of earlier connections. */
  function LongChunks(stops: nat, inputs: seq<Input>): nat {
    if inputs == [] then stops
    else LongChunks(stops, inputs[..|inputs| - 1]) + if |inputs[|inputs| - 1].chunk| >= 50 then 1 else 0
  }

  ghost predicate Counted(s: Session, total: nat) {
    s.stops < 3 && (!s.over ==> s.stops == total % 3 && (s.closed <==> total >= 3))
  }

  lemma ChunkIsCounted(c: Config, s: Session, d: seq<byte>, read: Read, total: nat, next: nat)
    requires Counted(s, total) && next == total + if |d| >= 50 then 1 else 0
    ensures Counted(HandleChunk(c, s, d, read), next)
  {}

  /** The count goes on from earlier connections; the third long chunk closes the connection and starts it anew. */
  lemma {:induction false} LongChunksAreCounted(c: Config, stops: nat, inputs: seq<Input>)
    requires stops < 3
    ensures Counted(Run(c, stops, inputs), LongChunks(stops, inputs))
  {
    if inputs != [] {
      var init, i := inputs[..|inputs| - 1], inputs[|inputs| - 1];
      LongChunksAreCounted(c, stops, init);
      ChunkIsCounted(
        c, Run(c, stops, init), i.chunk, i.read, LongChunks(stops, init), LongChunks(stops, inputs));
    }
  }

  // ---------------------------------------------------------------------
  // What a client makes of the bytes
  // ---------------------------------------------------------------------

  ghost predicate Renderable(s: Session) {
    forall m | m in s.out :: WellFormed(m)
  }

  ghost predicate ShortRead(read: Read) {
    read.Value? ==> |read.data| < 0x1_0000_0000 - 7
  }

  lemma AnswerIsShort(userdata: seq<byte>, read: Read)
    requires userdata != [] && ShortRead(read)
    ensures var answer := UdsAnswer(userdata, read); answer.Some? ==> |answer.value| < 0x1_0000_0000 - 4
  {}

  lemma ChunkIsRenderable(c: Config, s: Session, d: seq<byte>, read: Read)
    requires Renderable(s) && Short(c.discovery) && ShortRead(read)
    ensures Renderable(HandleChunk(c, s, d, read))
  {
    ParsedAddresses(d);
    if Parse(d).Ok? && Parse(d).value.message.Diagnostic? {
      AnswerIsShort(Parse(d).value.message.userdata, read);
    }
  }

  lemma {:induction false} SessionIsRenderable(c: Config, stops: nat, inputs: seq<Input>)
    requires Short(c.discovery) && forall i | i in inputs :: ShortRead(i.read)
    ensures Renderable(Run(c, stops, inputs))
  {
    if inputs != [] {
      var last := inputs[|inputs| - 1];
      SessionIsRenderable(c, stops, inputs[..|inputs| - 1]);
      ChunkIsRenderable(c, Run(c, stops, inputs[..|inputs| - 1]), last.chunk, last.read);
    }
  }

  /** A client that parses the concatenated bytes recovers exactly the messages of the session. */
  lemma {:induction false} ClientRecoversTheSession(c: Config, stops: nat, inputs: seq<Input>)
    requires Short(c.discovery) && forall i | i in inputs :: ShortRead(i.read)
    ensures var s := Run(c, stops, inputs);
            && (forall m | m in s.out :: WellFormed(m))
            && ParseAll(Stream(s.out)) == s.out
  {
    SessionIsRenderable(c, stops, inputs);
    StreamIsRecovered(Run(c, stops, inputs).out);
  }

  // ---------------------------------------------------------------------
  // The server object, whose count of long chunks outlives a session
  // ---------------------------------------------------------------------

  class DoipServer {
    const config: Config
    var shouldStopCount: nat

    constructor (c: Config)
      ensures config == c && shouldStopCount == 0
    {
      config, shouldStopCount := c, 0;
    }

    method HandleTcpSession(inputs: seq<Input>) returns (out: seq<Message>)
      modifies this
      ensures var s := Run(config, old(shouldStopCount), inputs);
              out == s.out && shouldStopCount == s.stops
      ensures Transcript(config, old(shouldStopCount), inputs, out)
    {
      out := [];
      var activated, closed := false, false;
      ghost var start := shouldStopCount;
      SessionFollowsGrammar(config, start, inputs);
      for i := 0 to |inputs|
        invariant Run(config, start, inputs[..i]) ==
                  Session(activated, shouldStopCount, closed, false, out)
      {
        var data, read := inputs[i].chunk, inputs[i].read;
        ghost var s := Session(activated, shouldStopCount, closed, false, out);
        assert inputs[..i + 1][..i] == inputs[..i];
        ghost var next := HandleChunk(config, s, data, read);
        assert next == Run(config, start, inputs[..i + 1]);
        if data == [] {
          RunStaysOver(config, start, inputs, i + 1);
          return;
        }
        if |data| >= LONG_CHUNK {
          shouldStopCount := shouldStopCount + 1;
          if shouldStopCount == STOP_COUNT {
            shouldStopCount := 0;
            closed := true;
          }
          continue;
        }
        var parsed := Parse(data);
        ParsedAddresses(data);
        if parsed.Err? || (closed && !activated && parsed.value.message.RoutingActivationRequest?)
           || (closed && activated && parsed.value.message.Diagnostic?) {
          RunStaysOver(config, start, inputs, i + 1);
          return;
        }
        var request := parsed.value.message;
        if !activated {
          if !request.RoutingActivationRequest? {
            RunStaysOver(config, start, inputs, i + 1);
            return;
          }
          out := out + [RoutingActivationResponse(request.source, config.discovery, SUCCESSFUL_ACTIVATION)];
          activated := true;
        } else if request.Diagnostic? {
          if request.target !in config.targets {
            out := out + [DiagnosticNack(request.source, request.target, UNKNOWN_TARGET_ADDR)];
            continue;
          }
          out := out + [DiagnosticAck(request.source, request.target, MESSAGE_ACKNOWLEDGE)];
          var answer := UdsAnswer(request.userdata, read);
          if answer.None? {
            RunStaysOver(config, start, inputs, i + 1);
            return;
          }
          out := out + [Diagnostic(request.source, request.target, answer.value)];
        }
      }
      assert inputs[..|inputs|] == inputs;
    }
  }

  lemma {:induction false} RunStaysOver(c: Config, stops: nat, inputs: seq<Input>, k: nat)
    requires k <= |inputs| && Run(c, stops, inputs[..k]).over
    ensures Run(c, stops, inputs) == Run(c, stops, inputs[..k])
  {
    if k < |inputs| {
      var init := inputs[..|inputs| - 1];
      assert init[..k] == inputs[..k];
      RunStaysOver(c, stops, init, k);
    } else {
      assert inputs[..k] == inputs;
    }
  }
}
