/**
 The DoIP message codec (ISO 13400-2): a header with type and length around
 seven kinds of payload. Slices are cut short at the end of the data, and extra
 data after a message is left for later.
 */
module DoipCodec {
  import opened Common

  // ---------------------------------------------------------------------
  // Numbers as big-endian bytes
  // ---------------------------------------------------------------------

  function Pow256(k: nat): (p: nat)
    ensures p >= 1
  {
    if k == 0 then 1 else 256 * Pow256(k - 1)
  }

  /** The k lowest bytes of a number, most significant first. */
  function NumToBytes(n: int, k: nat): (d: seq<byte>)
    ensures |d| == k
    decreases k, n
  {
    if k == 0 then [] else NumToBytes(n / 256, k - 1) + [n % 256]
  }

  function BytesToNum(d: seq<byte>): nat {
    if d == [] then 0
    else
      var low: int := d[|d| - 1];
      BytesToNum(d[..|d| - 1]) * 256 + low
  }

  method RenderNumber(num: int, numbytes: nat) returns (data: seq<byte>)
    ensures data == NumToBytes(num, numbytes)
  {
    data := [];
    var rest := num;
    for idx := 0 to numbytes
      invariant NumToBytes(rest, numbytes - idx) + data == NumToBytes(num, numbytes)
    {
      assert NumToBytes(rest, numbytes - idx) == NumToBytes(rest / 256, numbytes - idx - 1) + [rest % 256];
      data := [rest % 256] + data;
      rest := rest / 256;
    }
  }

  method ParseNumber(data: seq<byte>) returns (num: nat)
    ensures num == BytesToNum(data)
  {
    num := 0;
    for i := 0 to |data|
      invariant num == BytesToNum(data[..i])
    {
      var d: int := data[i];
      num := num * 256 + d;
      assert data[..i + 1][..i] == data[..i];
    }
    assert data[..|data|] == data;
  }

  lemma AtLeastOnce(m: int, d: int)
    requires m > 0 && d >= 1
    ensures m * d >= m
  {}

  lemma ModUnique(x: int, m: int, a: int, b: int)
    requires m > 0 && x == m * a + b && 0 <= b < m
    ensures x % m == b
  {
    var q, r := x / m, x % m;
    assert m * q - m * a == b - r;
    assert m * (q - a) == m * q - m * a && m * (a - q) == m * a - m * q;
    if q > a {
      AtLeastOnce(m, q - a);
    } else if q < a {
      AtLeastOnce(m, a - q);
    }
  }

  lemma ModByParts(n: int, p: int)
    requires p > 0
    ensures n % (256 * p) == 256 * ((n / 256) % p) + n % 256
  {
    var q, r := n / 256, n % 256;
    var a, b := q / p, q % p;
    assert q == p * a + b;
    assert (256 * p) * a == 256 * (p * a);
    ModUnique(n, 256 * p, a, 256 * b + r);
  }

  /** Writing k bytes and reading them back gives the number modulo 256^k. */
  lemma {:induction false} NumberRoundTrip(n: int, k: nat)
    ensures BytesToNum(NumToBytes(n, k)) == n % Pow256(k)
    decreases k
  {
    if k > 0 {
      NumberRoundTrip(n / 256, k - 1);
      assert NumToBytes(n, k)[..k - 1] == NumToBytes(n / 256, k - 1);
      ModByParts(n, Pow256(k - 1));
    }
  }

  /** Reading any bytes and writing the number again gives the same bytes. */
  lemma {:induction false} BytesRoundTrip(d: seq<byte>)
    ensures NumToBytes(BytesToNum(d), |d|) == d
    ensures BytesToNum(d) < Pow256(|d|)
  {
    if d != [] {
      var init := d[..|d| - 1];
      BytesRoundTrip(init);
      assert BytesToNum(d) / 256 == BytesToNum(init);
      assert d == init + [d[|d| - 1]];
    }
  }

  lemma Powers()
    ensures Pow256(1) == 0x100 && Pow256(2) == 0x1_0000 && Pow256(4) == 0x1_0000_0000 && Pow256(6) == 0x1_0000_0000_0000
  {
    assert Pow256(3) == 256 * Pow256(2) && Pow256(5) == 256 * Pow256(4);
  }

  // ---------------------------------------------------------------------
  // Messages
  // ---------------------------------------------------------------------

  /** Addresses and identifiers are whatever numbers the caller gave; vin is its UTF-8 encoding. */
  datatype Message =
    | VehicleIdentityRequest
    | VehicleAnnouncement(vin: seq<byte>, logical: int, eid: int, gid: int, action: byte)
    | RoutingActivationRequest(source: int, activation: byte)
    | RoutingActivationResponse(target: int, source: int, code: byte)
    | Diagnostic(target: int, source: int, userdata: seq<byte>)
    | DiagnosticAck(source: int, target: int, code: byte)
    | DiagnosticNack(source: int, target: int, code: byte)

  function PayloadType(m: Message): nat {
    match m
    case VehicleIdentityRequest => 0x0001
    case VehicleAnnouncement(_, _, _, _, _) => 0x0004
    case RoutingActivationRequest(_, _) => 0x0005
    case RoutingActivationResponse(_, _, _) => 0x0006
    case Diagnostic(_, _, _) => 0x8001
    case DiagnosticAck(_, _, _) => 0x8002
    case DiagnosticNack(_, _, _) => 0x8003
  }

  const REGISTERED: set<nat> := {0x0001, 0x0004, 0x0005, 0x0006, 0x8001, 0x8002, 0x8003}

  function PadTo(d: seq<byte>, n: nat): seq<byte> {
    if |d| < n then d + Zeros(n - |d|) else d
  }

  function StripZeros(d: seq<byte>): seq<byte> {
    if d == [] || d[|d| - 1] != 0 then d else StripZeros(d[..|d| - 1])
  }

  /** What a message carries after its header, if it may be rendered. */
  function Body(m: Message): Option<seq<byte>> {
    match m
    case VehicleIdentityRequest => Some([])
    case VehicleAnnouncement(vin, logical, eid, gid, action) =>
      var data := PadTo(vin, 17) + NumToBytes(logical, 2) + NumToBytes(eid, 6) + NumToBytes(gid, 6) + [action];
      if |data| != 32 then None else Some(data)
    case RoutingActivationRequest(source, activation) => Some(NumToBytes(source, 2) + [activation] + Zeros(8))
    case RoutingActivationResponse(target, source, code) =>
      Some(NumToBytes(target, 2) + NumToBytes(source, 2) + [code] + Zeros(8))
    case Diagnostic(target, source, userdata) =>
      var data := NumToBytes(source, 2) + NumToBytes(target, 2) + userdata;
      if |data| < 5 then None else Some(data)
    case DiagnosticAck(source, target, code) => Some(NumToBytes(source, 2) + NumToBytes(target, 2) + [code])
    case DiagnosticNack(source, target, code) => Some(NumToBytes(source, 2) + NumToBytes(target, 2) + [code])
  }

  function Framed(payloadType: nat, data: seq<byte>): seq<byte> {
    [0x02, 0xFD] + NumToBytes(payloadType, 2) + NumToBytes(|data|, 4) + data
  }

  /** None where the source raises InvalidMessage. */
  function Render(m: Message): Option<seq<byte>> {
    var body := Body(m);
    if body.None? then None else Some(Framed(PayloadType(m), body.value))
  }

  // ---------------------------------------------------------------------
  // Parsing
  // ---------------------------------------------------------------------

  datatype Error = InvalidMessage | NotSupported | OutOfBounds

  datatype Result<+T> = Ok(value: T) | Err(error: Error)

  function Num(d: seq<byte>, lo: nat, hi: nat): nat
    requires lo <= hi
  {
    BytesToNum(Slice(d, lo, hi))
  }

  function ParseBody(payloadType: nat, d: seq<byte>): Result<Message>
    requires payloadType in REGISTERED
  {
    if payloadType == 0x0001 then
      if |d| > 0 then Err(InvalidMessage) else Ok(VehicleIdentityRequest)
    else if payloadType == 0x0004 then
      if |d| != 32 then Err(InvalidMessage)
      else Ok(VehicleAnnouncement(StripZeros(d[..17]), Num(d, 17, 19), Num(d, 19, 25), Num(d, 25, 31), d[31]))
    else if payloadType == 0x0005 then
      if |d| < 7 then Err(InvalidMessage) else Ok(RoutingActivationRequest(Num(d, 0, 2), d[2]))
    else if payloadType == 0x0006 then
      if |d| != 13 then Err(InvalidMessage) else Ok(RoutingActivationResponse(Num(d, 0, 2), Num(d, 2, 4), d[4]))
    else if |d| < 5 then Err(InvalidMessage)
    else if payloadType == 0x8001 then Ok(Diagnostic(Num(d, 2, 4), Num(d, 0, 2), d[4..]))
    else if payloadType == 0x8002 then Ok(DiagnosticAck(Num(d, 0, 2), Num(d, 2, 4), d[4]))
    else Ok(DiagnosticNack(Num(d, 0, 2), Num(d, 2, 4), d[4]))
  }

  datatype Parsed = Parsed(message: Message, used: nat)

  /** The first message of the data; only the first two bytes must be there to look for one. */
  function Parse(d: seq<byte>): Result<Parsed> {
    if |d| < 2 then Err(OutOfBounds)
    else if d[0] != 0xFF - d[1] then Err(InvalidMessage)
    else
      var payloadType, written := Num(d, 2, 4), Num(d, 4, 8);
      if payloadType !in REGISTERED then Err(NotSupported)
      else if |Slice(d, 8, |d| + 8)| < written then Err(InvalidMessage)
      else
        match ParseBody(payloadType, Slice(d, 8, 8 + written))
        case Err(e) => Err(e)
        case Ok(m) => Ok(Parsed(m, written + 8))
  }

  // ---------------------------------------------------------------------
  // Framing can be decoded from the front
  // ---------------------------------------------------------------------

  predicate Short(n: int) {
    0 <= n < 0x1_0000
  }

  /** What survives being rendered and parsed. */
  predicate WellFormed(m: Message) {
    match m
    case VehicleIdentityRequest => true
    case VehicleAnnouncement(vin, logical, eid, gid, _) =>
      && |vin| <= 17 && (vin != [] ==> vin[|vin| - 1] != 0)
      && Short(logical) && 0 <= eid < 0x1_0000_0000_0000 && 0 <= gid < 0x1_0000_0000_0000
    case RoutingActivationRequest(source, _) => Short(source)
    case RoutingActivationResponse(target, source, _) => Short(target) && Short(source)
    case Diagnostic(target, source, userdata) =>
      Short(target) && Short(source) && 0 < |userdata| < 0x1_0000_0000 - 4
    case DiagnosticAck(source, target, _) => Short(source) && Short(target)
    case DiagnosticNack(source, target, _) => Short(source) && Short(target)
  }

  lemma {:induction false} StripPadded(d: seq<byte>, n: nat)
    requires d != [] ==> d[|d| - 1] != 0
    ensures StripZeros(d + Zeros(n)) == d
  {
    if n == 0 {
      assert d + Zeros(n) == d;
    } else {
      assert (d + Zeros(n))[..|d| + n - 1] == d + Zeros(n - 1);
      StripPadded(d, n - 1);
    }
  }

  lemma {:induction false} StripEndsNonzero(d: seq<byte>)
    ensures var s := StripZeros(d); s != [] ==> s[|s| - 1] != 0
  {
    if d != [] && d[|d| - 1] == 0 {
      StripEndsNonzero(d[..|d| - 1]);
    }
  }

  /** The two numbers at the head of a body are read back modulo 65536. */
  lemma {:induction false} TwoAddresses(first: int, second: int, rest: seq<byte>)
    ensures var d := NumToBytes(first, 2) + NumToBytes(second, 2) + rest;
            Num(d, 0, 2) == first % 0x1_0000 && Num(d, 2, 4) == second % 0x1_0000 && d[4..] == rest
  {
    var a, b := NumToBytes(first, 2), NumToBytes(second, 2);
    var d := a + b + rest;
    assert Slice(d, 0, 2) == a && Slice(d, 2, 4) == b;
    NumberRoundTrip(first, 2);
    NumberRoundTrip(second, 2);
    Powers();
  }

  lemma {:induction false} OneAddress(first: int, rest: seq<byte>)
    ensures var d := NumToBytes(first, 2) + rest; Num(d, 0, 2) == first % 0x1_0000 && d[2..] == rest
  {
    assert Slice(NumToBytes(first, 2) + rest, 0, 2) == NumToBytes(first, 2);
    NumberRoundTrip(first, 2);
    Powers();
  }

  /** What is left of an announcement after rendering and parsing. */
  function Announced(m: Message): Message
    requires m.VehicleAnnouncement?
  {
    VehicleAnnouncement(StripZeros(PadTo(m.vin, 17)), m.logical % 0x1_0000,
                        m.eid % 0x1_0000_0000_0000, m.gid % 0x1_0000_0000_0000, m.action)
  }

  lemma AnnouncementSlices(v: seq<byte>, l: seq<byte>, e: seq<byte>, g: seq<byte>, action: byte)
    requires |v| == 17 && |l| == 2 && |e| == |g| == 6
    ensures var d := v + l + e + g + [action];
            && |d| == 32 && d[..17] == v && d[31] == action
            && Slice(d, 17, 19) == l && Slice(d, 19, 25) == e && Slice(d, 25, 31) == g
  {}

  lemma AnnouncementBody(m: Message)
    requires m.VehicleAnnouncement? && |m.vin| <= 17
    ensures Body(m).Some? && |Body(m).value| == 32 && ParseBody(0x0004, Body(m).value) == Ok(Announced(m))
  {
    AnnouncementSlices(
      PadTo(m.vin, 17), NumToBytes(m.logical, 2), NumToBytes(m.eid, 6), NumToBytes(m.gid, 6), m.action);
    NumberRoundTrip(m.logical, 2);
    NumberRoundTrip(m.eid, 6);
    NumberRoundTrip(m.gid, 6);
    Powers();
  }

  /** A VIN of at most 17 bytes survives padding exactly when it does not end in a zero byte. */
  lemma VinSurvivesExactly(vin: seq<byte>)
    requires |vin| <= 17
    ensures StripZeros(PadTo(vin, 17)) == vin <==> (vin == [] || vin[|vin| - 1] != 0)
  {
    assert PadTo(vin, 17) == vin + Zeros(17 - |vin|);
    if vin == [] || vin[|vin| - 1] != 0 {
      StripPadded(vin, 17 - |vin|);
    } else {
      StripEndsNonzero(PadTo(vin, 17));
    }
  }

  lemma AnnouncedExactly(m: Message)
    requires m.VehicleAnnouncement? && |m.vin| <= 17
    ensures Announced(m) == m <==> WellFormed(m)
  {
    VinSurvivesExactly(m.vin);
  }

  lemma AnnouncementSurvivesExactly(m: Message)
    requires m.VehicleAnnouncement? && Body(m).Some?
    ensures |Body(m).value| == 32
    ensures ParseBody(0x0004, Body(m).value) == Ok(m) <==> WellFormed(m)
  {
    assert |PadTo(m.vin, 17)| == 17;
    AnnouncementBody(m);
    AnnouncedExactly(m);
  }

  lemma RequestSurvivesExactly(m: Message)
    requires m.RoutingActivationRequest?
    ensures ParseBody(0x0005, Body(m).value) == Ok(m) <==> WellFormed(m)
  {
    var d := Body(m).value;
    assert d == NumToBytes(m.source, 2) + ([m.activation] + Zeros(8));
    OneAddress(m.source, [m.activation] + Zeros(8));
    assert |d| == 11 && d[2] == m.activation;
  }

  lemma ResponseSurvivesExactly(m: Message)
    requires m.RoutingActivationResponse?
    ensures ParseBody(0x0006, Body(m).value) == Ok(m) <==> WellFormed(m)
  {
    var d := Body(m).value;
    assert d == NumToBytes(m.target, 2) + NumToBytes(m.source, 2) + ([m.code] + Zeros(8));
    TwoAddresses(m.target, m.source, [m.code] + Zeros(8));
    assert |d| == 13 && d[4] == m.code;
  }

  lemma DiagnosticSurvivesExactly(m: Message)
    requires m.Diagnostic? && Body(m).Some?
    ensures |Body(m).value| == |m.userdata| + 4
    ensures ParseBody(0x8001, Body(m).value) == Ok(m) <==> Short(m.target) && Short(m.source)
  {
    TwoAddresses(m.source, m.target, m.userdata);
  }

  lemma AckSurvivesExactly(m: Message)
    requires m.DiagnosticAck? || m.DiagnosticNack?
    ensures |Body(m).value| == 5
    ensures ParseBody(PayloadType(m), Body(m).value) == Ok(m) <==> WellFormed(m)
  {
    TwoAddresses(m.source, m.target, [m.code]);
    assert Body(m).value[4..] == [m.code];
  }

  /** A body that may be rendered is parsed to the message itself exactly when that is well formed, its length apart. */
  lemma BodySurvivesExactly(m: Message)
    requires Body(m).Some?
    ensures |Body(m).value| < 0x1_0000_0000 ==> (ParseBody(PayloadType(m), Body(m).value) == Ok(m) <==> WellFormed(m))
    ensures |Body(m).value| >= 0x1_0000_0000 ==> !WellFormed(m)
  {
    match m
    case VehicleIdentityRequest =>
    case VehicleAnnouncement(_, _, _, _, _) => AnnouncementSurvivesExactly(m);
    case RoutingActivationRequest(_, _) => RequestSurvivesExactly(m);
    case RoutingActivationResponse(_, _, _) => ResponseSurvivesExactly(m);
    case Diagnostic(_, _, _) => DiagnosticSurvivesExactly(m);
    case DiagnosticAck(_, _, _) => AckSurvivesExactly(m);
    case DiagnosticNack(_, _, _) => AckSurvivesExactly(m);
  }

  lemma HeaderSlices(t: seq<byte>, l: seq<byte>, tail: seq<byte>)
    requires |t| == 2 && |l| == 4
    ensures var d := [0x02, 0xFD] + t + l + tail; Slice(d, 2, 4) == t && Slice(d, 4, 8) == l && d[8..] == tail
  {
    var d := [0x02, 0xFD] + t + l + tail;
    assert d[2..4] == t && d[4..8] == l;
  }

  /** A frame is parsed up to its written length, which is the true length unless that needs more than four bytes. */
  lemma ParseFrame(payloadType: nat, data: seq<byte>, rest: seq<byte>)
    requires payloadType in REGISTERED
    ensures var d := Framed(payloadType, data) + rest;
            && |d| == |data| + |rest| + 8
            && Num(d, 2, 4) == payloadType
            && Num(d, 4, 8) == |data| % 0x1_0000_0000
            && d[0] == 0xFF - d[1]
            && d[8..8 + |data|] == data
  {
    var t, l := NumToBytes(payloadType, 2), NumToBytes(|data|, 4);
    var d := Framed(payloadType, data) + rest;
    assert d == [0x02, 0xFD] + t + l + (data + rest);
    HeaderSlices(t, l, data + rest);
    assert d[8..][..|data|] == data;
    NumberRoundTrip(payloadType, 2);
    NumberRoundTrip(|data|, 4);
    Powers();
    assert payloadType < 0x1_0000;
  }

  /** What parsing does with a frame whose header has been read. */
  lemma ParseWithHeader(d: seq<byte>, payloadType: nat, written: nat)
    requires |d| >= 8 && d[0] == 0xFF - d[1] && payloadType in REGISTERED
    requires Num(d, 2, 4) == payloadType && Num(d, 4, 8) == written
    ensures written <= |d| - 8 ==>
              Parse(d) == match ParseBody(payloadType, d[8..8 + written])
                          case Err(e) => Err(e)
                          case Ok(m) => Ok(Parsed(m, written + 8))
    ensures Parse(d).Ok? ==> Parse(d).value.used == written + 8
  {
    assert |Slice(d, 8, |d| + 8)| == |d| - 8;
    if written <= |d| - 8 {
      assert Slice(d, 8, 8 + written) == d[8..8 + written];
    }
  }

  lemma ParseFramed(payloadType: nat, data: seq<byte>, rest: seq<byte>)
    requires payloadType in REGISTERED
    ensures |data| < 0x1_0000_0000 ==>
              Parse(Framed(payloadType, data) + rest) ==
              match ParseBody(payloadType, data)
              case Err(e) => Err(e)
              case Ok(m) => Ok(Parsed(m, |data| + 8))
    ensures var r := Parse(Framed(payloadType, data) + rest);
            |data| >= 0x1_0000_0000 && r.Ok? ==> r.value.used < |data| + 8
  {
    var d := Framed(payloadType, data) + rest;
    ParseFrame(payloadType, data, rest);
    ParseWithHeader(d, payloadType, |data| % 0x1_0000_0000);
  }

  /**
   Whatever follows a rendered message, parsing gives the message back together
   with its exact length, if and only if the message is well formed.
   */
  lemma PrefixDecodable(m: Message, rest: seq<byte>)
    requires Render(m).Some?
    ensures Parse(Render(m).value + rest) == Ok(Parsed(m, |Render(m).value|)) <==> WellFormed(m)
  {
    var body := Body(m).value;
    assert |Render(m).value| == |body| + 8;
    ParseFramed(PayloadType(m), body, rest);
    BodySurvivesExactly(m);
  }

  lemma WellFormedRenders(m: Message)
    requires WellFormed(m)
    ensures Render(m).Some? && |Render(m).value| >= 8
  {}

  function Stream(ms: seq<Message>): seq<byte>
    requires forall m | m in ms :: WellFormed(m)
  {
    if ms == [] then []
    else
      WellFormedRenders(ms[0]);
      Render(ms[0]).value + Stream(ms[1..])
  }

  /** Repeated parsing, as long as something is found. */
  function ParseAll(d: seq<byte>): seq<Message>
    decreases |d|
  {
    match Parse(d)
    case Err(_) => []
    case Ok(p) => [p.message] + if p.used <= |d| then ParseAll(d[p.used..]) else []
  }

  /** Any list of well-formed messages is recovered from the concatenation of their frames. */
  lemma {:induction false} StreamIsRecovered(ms: seq<Message>)
    requires forall m | m in ms :: WellFormed(m)
    ensures ParseAll(Stream(ms)) == ms
  {
    if ms != [] {
      WellFormedRenders(ms[0]);
      var frame := Render(ms[0]).value;
      PrefixDecodable(ms[0], Stream(ms[1..]));
      assert Stream(ms)[|frame|..] == Stream(ms[1..]);
      StreamIsRecovered(ms[1..]);
    }
  }

  lemma TwoBytesAreShort(d: seq<byte>, lo: nat)
    ensures Short(Num(d, lo, lo + 2))
  {
    var two := Slice(d, lo, lo + 2);
    BytesRoundTrip(two);
    Powers();
    assert |two| == 0 || |two| == 1 || |two| == 2;
    assert Pow256(0) == 1;
  }

  lemma ParsedBody(payloadType: nat, d: seq<byte>)
    requires payloadType in REGISTERED && ParseBody(payloadType, d).Ok?
    ensures var m := ParseBody(payloadType, d).value;
            && (m.Diagnostic? ==> Short(m.target) && Short(m.source) && |m.userdata| > 0)
            && (m.RoutingActivationRequest? ==> Short(m.source))
  {
    TwoBytesAreShort(d, 0);
    TwoBytesAreShort(d, 2);
  }

  /** Addresses that were parsed fit in their fields, and a diagnostic message always has user data. */
  lemma ParsedAddresses(d: seq<byte>)
    ensures Parse(d).Ok? && Parse(d).value.message.Diagnostic? ==>
              var m := Parse(d).value.message; Short(m.target) && Short(m.source) && |m.userdata| > 0
    ensures Parse(d).Ok? && Parse(d).value.message.RoutingActivationRequest? ==> Short(Parse(d).value.message.source)
  {
    if Parse(d).Ok? {
      ParsedBody(Num(d, 2, 4), Slice(d, 8, 8 + Num(d, 4, 8)));
    }
  }

  // ---------------------------------------------------------------------
  // The bytes on the wire
  // ---------------------------------------------------------------------

  function Two(n: nat): seq<byte> {
    [n / 0x100 % 0x100, n % 0x100]
  }

  function Four(n: nat): seq<byte> {
    Two(n / 0x1_0000) + Two(n)
  }

  /** Version and its complement, type and length of a message, byte by byte. */
  function Head(m: Message): seq<byte>
    requires WellFormed(m)
  {
    match m
    case VehicleIdentityRequest => [0x02, 0xFD, 0x00, 0x01] + Four(0)
    case VehicleAnnouncement(_, _, _, _, _) => [0x02, 0xFD, 0x00, 0x04] + Four(32)
    case RoutingActivationRequest(_, _) => [0x02, 0xFD, 0x00, 0x05] + Four(11)
    case RoutingActivationResponse(_, _, _) => [0x02, 0xFD, 0x00, 0x06] + Four(13)
    case Diagnostic(_, _, userdata) => [0x02, 0xFD, 0x80, 0x01] + Four(4 + |userdata|)
    case DiagnosticAck(_, _, _) => [0x02, 0xFD, 0x80, 0x02] + Four(5)
    case DiagnosticNack(_, _, _) => [0x02, 0xFD, 0x80, 0x03] + Four(5)
  }

  /** Its fields in their order, each number most significant byte first. */
  function Fields(m: Message): seq<byte>
    requires WellFormed(m)
  {
    match m
    case VehicleIdentityRequest => []
    case VehicleAnnouncement(vin, logical, eid, gid, action) =>
      vin + Zeros(17 - |vin|) + Two(logical) +
      (Two(eid / 0x1_0000_0000) + Four(eid)) + (Two(gid / 0x1_0000_0000) + Four(gid)) + [action]
    case RoutingActivationRequest(source, activation) => Two(source) + [activation] + Zeros(8)
    case RoutingActivationResponse(target, source, code) => Two(target) + Two(source) + [code] + Zeros(8)
    case Diagnostic(target, source, userdata) => Two(source) + Two(target) + userdata
    case DiagnosticAck(source, target, code) => Two(source) + Two(target) + [code]
    case DiagnosticNack(source, target, code) => Two(source) + Two(target) + [code]
  }

  lemma {:induction false} TwoBytes(n: nat)
    ensures NumToBytes(n, 2) == Two(n)
  {
    assert NumToBytes(n / 256, 1) == NumToBytes(n / 256 / 256, 0) + [n / 256 % 256];
  }

  lemma {:induction false} FourBytes(n: nat)
    ensures NumToBytes(n, 4) == Four(n)
  {
    assert n / 256 / 256 == n / 0x1_0000;
    assert NumToBytes(n / 256, 3) == NumToBytes(n / 256 / 256, 2) + [n / 256 % 256];
    TwoBytes(n / 0x1_0000);
  }

  lemma {:induction false} SixBytes(n: nat)
    ensures NumToBytes(n, 6) == Two(n / 0x1_0000_0000) + Four(n)
  {
    assert n / 256 / 256 == n / 0x1_0000 && n / 0x1_0000 / 0x1_0000 == n / 0x1_0000_0000;
    assert NumToBytes(n / 256, 5) == NumToBytes(n / 256 / 256, 4) + [n / 256 % 256];
    FourBytes(n / 0x1_0000);
  }

  lemma HeaderBytes(payloadType: nat, data: seq<byte>)
    requires |data| < 0x1_0000_0000
    ensures Framed(payloadType, data) == [0x02, 0xFD] + Two(payloadType) + Four(|data|) + data
  {
    TwoBytes(payloadType);
    FourBytes(|data|);
  }

  lemma BodyOnTheWire(m: Message)
    requires WellFormed(m)
    ensures Body(m) == Some(Fields(m))
  {
    match m
    case VehicleIdentityRequest =>
    case VehicleAnnouncement(vin, logical, eid, gid, _) =>
      assert PadTo(vin, 17) == vin + Zeros(17 - |vin|);
      TwoBytes(logical);
      SixBytes(eid);
      SixBytes(gid);
    case RoutingActivationRequest(source, _) => TwoBytes(source);
    case RoutingActivationResponse(target, source, _) => TwoBytes(target); TwoBytes(source);
    case Diagnostic(target, source, _) => TwoBytes(target); TwoBytes(source);
    case DiagnosticAck(source, target, _) => TwoBytes(target); TwoBytes(source);
    case DiagnosticNack(source, target, _) => TwoBytes(target); TwoBytes(source);
  }

  lemma HeadOnTheWire(m: Message)
    requires WellFormed(m)
    ensures |Fields(m)| < 0x1_0000_0000
    ensures Head(m) == [0x02, 0xFD] + Two(PayloadType(m)) + Four(|Fields(m)|)
  {
    var t := Two(PayloadType(m));
    assert Head(m) == [0x02, 0xFD, t[0], t[1]] + Four(|Fields(m)|);
    assert [0x02, 0xFD, t[0], t[1]] == [0x02, 0xFD] + t;
  }

  /** A well-formed message goes out in exactly these bytes. */
  lemma RenderedOnTheWire(m: Message)
    requires WellFormed(m)
    ensures Render(m) == Some(Head(m) + Fields(m))
  {
    BodyOnTheWire(m);
    HeadOnTheWire(m);
    HeaderBytes(PayloadType(m), Fields(m));
  }
}
