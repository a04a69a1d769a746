/** The UDS services that the DoIP server speaks, carried in diagnostic messages. */
module DoipUds {
  import opened Common
  import opened DoipCodec

  const TESTER_PRESENT: byte := 0x3E
  const READ_DATA: byte := 0x22
  const ERROR: byte := 0x3F

  const SERVICE_NOT_SUPPORTED: byte := 0x11
  const INVALID_FORMAT: byte := 0x13
  const REQUEST_OUT_OF_RANGE: byte := 0x31

  datatype Service =
    | TesterPresent(suppress: byte, isReply: bool)
    | ReadData(identifier: int, userdata: Option<seq<byte>>, isReply: bool)
    | ErrorReply(service: byte, code: byte, isReply: bool)

  /** Bit six of the service identifier marks a reply. */
  predicate HasReplyBit(sid: byte) {
    (sid / 64) % 2 == 1
  }

  function WithReplyBit(sid: byte): byte {
    if HasReplyBit(sid) then sid else sid + 0x40
  }

  function WithoutReplyBit(sid: byte): byte {
    if HasReplyBit(sid) then sid - 0x40 else sid
  }

  function ServiceId(u: Service): byte {
    match u
    case TesterPresent(_, _) => TESTER_PRESENT
    case ReadData(_, _, _) => READ_DATA
    case ErrorReply(_, _, _) => ERROR
  }

  function Data(u: Service, isReply: bool): seq<byte> {
    match u
    case TesterPresent(suppress, _) => [suppress]
    case ReadData(identifier, userdata, _) =>
      NumToBytes(identifier, 2) + if isReply && userdata.Some? then userdata.value else []
    case ErrorReply(service, code, _) => [service, code]
  }

  /** The caller says whether a reply is rendered; the object's own flag is not looked at. */
  function RenderService(u: Service, isReply: bool): seq<byte> {
    [if isReply then WithReplyBit(ServiceId(u)) else ServiceId(u)] + Data(u, isReply)
  }

  function ParseService(d: seq<byte>): Result<Service> {
    if d == [] then Err(InvalidMessage)
    else
      var sid, isReply, rest := WithoutReplyBit(d[0]), HasReplyBit(d[0]), d[1..];
      if sid == TESTER_PRESENT then
        if |rest| < 1 then Err(InvalidMessage) else Ok(TesterPresent(rest[0], isReply))
      else if sid == READ_DATA then
        if |rest| < 2 then Err(InvalidMessage)
        else Ok(ReadData(BytesToNum(rest[..2]), if isReply then Some(rest[2..]) else None, isReply))
      else if sid == ERROR then
        if |rest| != 2 then Err(InvalidMessage) else Ok(ErrorReply(rest[0], rest[1], isReply))
      else Err(NotSupported)
  }

  /** A reply without user data comes back with empty user data, a request always without any. */
  function AsReceived(u: Service, isReply: bool): Service {
    match u
    case TesterPresent(suppress, _) => TesterPresent(suppress, isReply)
    case ReadData(identifier, userdata, _) =>
      ReadData(identifier % 0x1_0000,
               if !isReply then None else if userdata.None? then Some([]) else userdata, isReply)
    case ErrorReply(service, code, _) => ErrorReply(service, code, isReply)
  }

  /** Every rendered service is parsed again, for either flag. */
  lemma ServiceRoundTrip(u: Service, isReply: bool)
    ensures ParseService(RenderService(u, isReply)) == Ok(AsReceived(u, isReply))
    ensures AsReceived(u, isReply) == u <==>
            u.isReply == isReply && (u.ReadData? ==> Short(u.identifier) && (u.userdata.Some? <==> isReply))
  {
    if u.ReadData? {
      var id := NumToBytes(u.identifier, 2);
      var d := RenderService(u, isReply);
      assert d[1..][..2] == id;
      assert isReply && u.userdata.Some? ==> d[1..][2..] == u.userdata.value;
      assert !(isReply && u.userdata.Some?) ==> d[1..][2..] == [];
      NumberRoundTrip(u.identifier, 2);
      Powers();
    }
  }

  /** A reply in bytes: the number of its service with bit six set, then its fields. */
  lemma ReplyOnTheWire(u: Service)
    ensures match u
            case TesterPresent(suppress, _) => RenderService(u, true) == [0x7E, suppress]
            case ReadData(identifier, userdata, _) =>
              Short(identifier) ==>
                RenderService(u, true) ==
                [0x62, identifier / 0x100, identifier % 0x100] + if userdata.Some? then userdata.value else []
            case ErrorReply(service, code, _) => RenderService(u, true) == [0x7F, service, code]
  {
    if u.ReadData? && Short(u.identifier) {
      TwoBytes(u.identifier);
      assert Two(u.identifier) == [u.identifier / 0x100, u.identifier % 0x100];
      assert [0x62] + Two(u.identifier) == [0x62, u.identifier / 0x100, u.identifier % 0x100];
    }
  }

  /** The bytes that parsing does not keep: those after a tester present, and after the identifier of a read request. */
  function Kept(d: seq<byte>): nat
    requires ParseService(d).Ok?
  {
    var u := ParseService(d).value;
    if u.TesterPresent? then 2 else if u.ReadData? && !u.isReply then 3 else |d|
  }

  /** Rendering what was parsed, with the flag it was parsed with, gives the bytes back up to those not kept. */
  lemma BytesComeBack(d: seq<byte>)
    requires ParseService(d).Ok?
    ensures var u := ParseService(d).value;
            Kept(d) <= |d| && RenderService(u, u.isReply) == d[..Kept(d)]
  {
    var u := ParseService(d).value;
    if u.ReadData? {
      BytesRoundTrip(d[1..][..2]);
      assert d[1..][..2] + d[1..][2..] == d[1..];
    }
  }
}
