/**
 The SupportedAppProtocol handshake (section 8.2 of ISO 15118-2): the EV offers
 its protocols in order of preference, the charging station takes the first it
 can speak, and the EV looks up what was taken.
 */
module SapNegotiation {
  import opened Common

  datatype Protocol = Din | Iso2 | Iso20Common | Iso20Ac | Iso20Dc | Iso20Wpt | Iso20Acdp

  const ISO_V20_BASE: string := "urn:iso:std:iso:15118:-20"

  function Namespace(p: Protocol): string {
    match p
    case Din => "urn:din:70121:2012:MsgDef"
    case Iso2 => "urn:iso:15118:2:2013:MsgDef"
    case Iso20Common => ISO_V20_BASE + ":CommonMessages"
    case Iso20Ac => ISO_V20_BASE + ":AC"
    case Iso20Dc => ISO_V20_BASE + ":DC"
    case Iso20Wpt => ISO_V20_BASE + ":WPT"
    case Iso20Acdp => ISO_V20_BASE + ":ACDP"
  }

  /** None stands for the protocol that is not known. */
  function ByNamespace(ns: string): (p: Option<Protocol>)
    ensures p.Some? ==> Namespace(p.value) == ns
  {
    if ns == Namespace(Din) then Some(Din)
    else if ns == Namespace(Iso2) then Some(Iso2)
    else if ns == Namespace(Iso20Common) then Some(Iso20Common)
    else if ns == Namespace(Iso20Ac) then Some(Iso20Ac)
    else if ns == Namespace(Iso20Dc) then Some(Iso20Dc)
    else if ns == Namespace(Iso20Wpt) then Some(Iso20Wpt)
    else if ns == Namespace(Iso20Acdp) then Some(Iso20Acdp)
    else None
  }

  /** The namespaces of ISO 15118-20 share a prefix, which the other two do not have. */
  lemma NamespacePrefix(p: Protocol)
    ensures ISO_V20_BASE <= Namespace(p) <==> !p.Din? && !p.Iso2?
  {
    assert Namespace(Din)[4] == 'd' && ISO_V20_BASE[4] == 'i';
    assert Namespace(Iso2)[8] == '1' && ISO_V20_BASE[8] == 's';
  }

  lemma NamespacesDifferFrom(p: Protocol, q: Protocol)
    requires Namespace(p) == Namespace(q)
    ensures p == q
  {
    NamespacePrefix(p);
    NamespacePrefix(q);
    assert Namespace(Din)[4] == 'd' && Namespace(Iso2)[4] == 'i';
    if !p.Din? && !p.Iso2? {
      var n := |ISO_V20_BASE|;
      assert Namespace(p)[n..] == Suffix(p) && Namespace(q)[n..] == Suffix(q);
      SuffixesDiffer(p);
    }
  }

  lemma NamespacesDiffer(p: Protocol)
    ensures ByNamespace(Namespace(p)) == Some(p)
    ensures ISO_V20_BASE <= Namespace(p) <==> !p.Din? && !p.Iso2?
  {
    NamespacePrefix(p);
    NamespacesDifferFrom(p, ByNamespace(Namespace(p)).value);
  }

  function Suffix(p: Protocol): string
    requires !p.Din? && !p.Iso2?
  {
    match p
    case Iso20Common => ":CommonMessages"
    case Iso20Ac => ":AC"
    case Iso20Dc => ":DC"
    case Iso20Wpt => ":WPT"
    case Iso20Acdp => ":ACDP"
  }

  lemma SuffixesDiffer(p: Protocol)
    requires !p.Din? && !p.Iso2?
    ensures forall q: Protocol | !q.Din? && !q.Iso2? && Suffix(q) == Suffix(p) :: q == p
  {
    assert ":AC"[1] == 'A' && ":DC"[1] == 'D';
  }

  datatype AppProtocol = AppProtocol(ns: string, major: int, minor: int, schemaId: int, priority: int)

  const OK: string := "OK_SuccessfulNegotiation"
  const MINOR_DEVIATION: string := "OK_SuccessfulNegotiationWithMinorDeviation"
  const NO_NEGOTIATION: string := "Failed_NoNegotiation"

  datatype Response = Response(code: string, schemaId: Option<int>)

  datatype NextState = SetupV2 | SetupDin | SetupV20 | Terminate

  function Setup(p: Protocol): NextState {
    match p
    case Din => SetupDin
    case Iso2 => SetupV2
    case _ => SetupV20
  }

  // ---------------------------------------------------------------------
  // EV: the offer
  // ---------------------------------------------------------------------

  function RemoveFirst(s: seq<Protocol>, p: Protocol): seq<Protocol> {
    if s == [] then [] else if s[0] == p then s[1..] else [s[0]] + RemoveFirst(s[1..], p)
  }

  function Entry(p: Protocol, position: int): AppProtocol {
    AppProtocol(Namespace(p), if p.Iso2? || p.Din? then 2 else 1, 0, position + 1, position + 1)
  }

  function Entries(protocols: seq<Protocol>): (entries: seq<AppProtocol>)
    ensures |entries| == |protocols|
  {
    seq(|protocols|, i requires 0 <= i < |protocols| => Entry(protocols[i], i))
  }

  /** A priority above 20 does not pass validation, and then no request is sent. */
  function Request(protocols: seq<Protocol>): Option<seq<AppProtocol>> {
    if |protocols| > 20 then None else Some(Entries(protocols))
  }

  function Offered(protocols: seq<Protocol>, tls: bool): seq<Protocol> {
    if tls then RemoveFirst(protocols, Din) else protocols
  }

  // ---------------------------------------------------------------------
  // Charging station: the choice
  // ---------------------------------------------------------------------

  predicate Acceptable(supported: seq<Protocol>, e: AppProtocol) {
    && (exists p | p in supported :: Namespace(p) == e.ns)
    && (if e.ns == Namespace(Iso2) || e.ns == Namespace(Din) then e.major == 2
        else ISO_V20_BASE <= e.ns && e.major == 1)
  }

  function Insert(e: AppProtocol, s: seq<AppProtocol>): seq<AppProtocol> {
    if s == [] || e.priority <= s[0].priority then [e] + s else [s[0]] + Insert(e, s[1..])
  }

  /** Stable: entries of the same priority keep their order. */
  function SortByPriority(s: seq<AppProtocol>): seq<AppProtocol> {
    if s == [] then [] else Insert(s[0], SortByPriority(s[1..]))
  }

  predicate Ordered(s: seq<AppProtocol>) {
    forall i, j | 0 <= i < j < |s| :: s[i].priority <= s[j].priority
  }

  function FirstAcceptable(supported: seq<Protocol>, s: seq<AppProtocol>): (e: Option<AppProtocol>)
    ensures e.Some? ==> Acceptable(supported, e.value)
  {
    if s == [] then None
    else if Acceptable(supported, s[0]) then Some(s[0])
    else FirstAcceptable(supported, s[1..])
  }

  datatype Secc = Secc(next: NextState, response: Response, protocol: Option<Protocol>)

  function Choose(supported: seq<Protocol>, entries: seq<AppProtocol>): Secc {
    match FirstAcceptable(supported, SortByPriority(entries))
    case None => Secc(Terminate, Response(NO_NEGOTIATION, None), None)
    case Some(e) =>
      Secc(if e.ns == Namespace(Iso2) then SetupV2 else if e.ns == Namespace(Din) then SetupDin else SetupV20,
           Response(if e.minor == 0 then OK else MINOR_DEVIATION, Some(e.schemaId)),
           ByNamespace(e.ns))
  }

  // ---------------------------------------------------------------------
  // EV: the look-up
  // ---------------------------------------------------------------------

  predicate Contains(s: string, t: string) {
    exists i | 0 <= i <= |s| :: t <= s[i..]
  }

  function FindSchema(entries: seq<AppProtocol>, id: Option<int>): (e: Option<AppProtocol>)
    ensures e.Some? ==> e.value in entries
  {
    if entries == [] then None
    else if Some(entries[0].schemaId) == id then Some(entries[0])
    else FindSchema(entries[1..], id)
  }

  datatype Evcc = Evcc(next: NextState, protocol: Option<Protocol>)

  /** A namespace of no known protocol raises an error, which ends the session. */
  function LookUp(entries: seq<AppProtocol>, r: Response): Evcc {
    if Contains(r.code, "FAILED") then Evcc(Terminate, None)
    else
      match FindSchema(entries, r.schemaId)
      case None => Evcc(Terminate, None)
      case Some(e) =>
        if e.ns == Namespace(Iso2) then Evcc(SetupV2, Some(Iso2))
        else if e.ns == Namespace(Din) then Evcc(SetupDin, Some(Din))
        else if ISO_V20_BASE <= e.ns then Evcc(SetupV20, ByNamespace(e.ns))
        else Evcc(Terminate, None)
  }

  // ---------------------------------------------------------------------
  // What the station chooses, for any request
  // ---------------------------------------------------------------------

  lemma {:induction false} InsertContents(e: AppProtocol, s: seq<AppProtocol>)
    ensures multiset(Insert(e, s)) == multiset{e} + multiset(s)
    decreases |s|
  {
    if s != [] && e.priority > s[0].priority {
      InsertContents(e, s[1..]);
      assert s == [s[0]] + s[1..];
    }
  }

  lemma {:induction false} InsertOrdered(e: AppProtocol, s: seq<AppProtocol>)
    requires Ordered(s)
    ensures Ordered(Insert(e, s))
    decreases |s|
  {
    if s != [] && e.priority > s[0].priority {
      InsertOrdered(e, s[1..]);
      InsertContents(e, s[1..]);
      var r := Insert(e, s[1..]);
      forall x | x in r ensures s[0].priority <= x.priority {
        assert x in multiset(r);
      }
    }
  }

  lemma {:induction false} SortIsOrdered(s: seq<AppProtocol>)
    ensures Ordered(SortByPriority(s)) && multiset(SortByPriority(s)) == multiset(s)
  {
    if s != [] {
      SortIsOrdered(s[1..]);
      InsertOrdered(s[0], SortByPriority(s[1..]));
      InsertContents(s[0], SortByPriority(s[1..]));
      assert s == [s[0]] + s[1..];
    }
  }

  /** e is taken if it beats what would be taken without it; on a tie the earlier entry wins. */
  lemma {:induction false} FirstAfterInsert(supported: seq<Protocol>, e: AppProtocol, s: seq<AppProtocol>)
    requires Ordered(s)
    ensures var best := FirstAcceptable(supported, s);
            FirstAcceptable(supported, Insert(e, s)) ==
            if Acceptable(supported, e) && (best.None? || e.priority <= best.value.priority) then Some(e) else best
    decreases |s|
  {
    if s != [] {
      FirstIsIn(supported, s);
      if e.priority > s[0].priority {
        FirstAfterInsert(supported, e, s[1..]);
        assert ([s[0]] + Insert(e, s[1..]))[1..] == Insert(e, s[1..]);
      } else {
        assert ([e] + s)[1..] == s;
      }
    }
  }

  lemma {:induction false} FirstIsIn(supported: seq<Protocol>, s: seq<AppProtocol>)
    ensures var best := FirstAcceptable(supported, s); best.Some? ==> best.value in s
  {
    if s != [] {
      FirstIsIn(supported, s[1..]);
    }
  }

  /** Entry i is the acceptable one of least priority number, and the first such. */
  ghost predicate IsBest(supported: seq<Protocol>, s: seq<AppProtocol>, i: nat) {
    && i < |s| && Acceptable(supported, s[i])
    && forall j | 0 <= j < |s| && Acceptable(supported, s[j]) ::
         s[i].priority < s[j].priority || (s[i].priority == s[j].priority && i <= j)
  }

  lemma BestOfRest(supported: seq<Protocol>, s: seq<AppProtocol>, k: nat)
    requires s != [] && IsBest(supported, s[1..], k)
    ensures if Acceptable(supported, s[0]) && s[0].priority <= s[k + 1].priority then IsBest(supported, s, 0)
            else IsBest(supported, s, k + 1)
  {
    assert forall j | 1 <= j < |s| :: s[j] == s[1..][j - 1];
  }

  lemma {:induction false} NothingToTake(supported: seq<Protocol>, s: seq<AppProtocol>)
    ensures FirstAcceptable(supported, s).None? <==> forall i | 0 <= i < |s| :: !Acceptable(supported, s[i])
  {
    if s != [] {
      NothingToTake(supported, s[1..]);
      assert forall j | 1 <= j < |s| :: s[j] == s[1..][j - 1];
    }
  }

  lemma {:induction false} TakenIsBest(supported: seq<Protocol>, s: seq<AppProtocol>) returns (i: nat)
    requires FirstAcceptable(supported, SortByPriority(s)).Some?
    ensures IsBest(supported, s, i) && FirstAcceptable(supported, SortByPriority(s)) == Some(s[i])
  {
    var rest := s[1..];
    SortIsOrdered(rest);
    FirstAfterInsert(supported, s[0], SortByPriority(rest));
    if FirstAcceptable(supported, SortByPriority(rest)).Some? {
      var k := TakenIsBest(supported, rest);
      BestOfRest(supported, s, k);
      i := if Acceptable(supported, s[0]) && s[0].priority <= s[k + 1].priority then 0 else k + 1;
    } else {
      i := 0;
      NothingTaken(supported, rest);
      assert forall j | 1 <= j < |s| :: s[j] == rest[j - 1];
    }
  }

  lemma {:induction false} NothingTaken(supported: seq<Protocol>, s: seq<AppProtocol>)
    ensures FirstAcceptable(supported, SortByPriority(s)).None? <==>
            forall i | 0 <= i < |s| :: !Acceptable(supported, s[i])
  {
    var sorted := SortByPriority(s);
    SortIsOrdered(s);
    NothingToTake(supported, sorted);
    assert forall i | 0 <= i < |s| :: s[i] in multiset(sorted);
    assert forall i | 0 <= i < |sorted| :: sorted[i] in multiset(s);
  }

  /** What sorting and searching takes is the best entry of the request as it came, and nothing if there is none. */
  lemma {:induction false} StationTakesTheBest(supported: seq<Protocol>, s: seq<AppProtocol>, e: Option<AppProtocol>)
    ensures FirstAcceptable(supported, SortByPriority(s)) == e <==>
            if e.Some? then exists i: nat :: IsBest(supported, s, i) && e.value == s[i]
            else forall i | 0 <= i < |s| :: !Acceptable(supported, s[i])
  {
    NothingTaken(supported, s);
    var taken := FirstAcceptable(supported, SortByPriority(s));
    if taken.Some? {
      var i := TakenIsBest(supported, s);
      assert forall j: nat | IsBest(supported, s, j) :: j == i;
    }
  }

  // ---------------------------------------------------------------------
  // Agreement
  // ---------------------------------------------------------------------

  /** The preference the outcome should follow: the first protocol offered that the station supports. */
  function FirstCommon(offered: seq<Protocol>, supported: seq<Protocol>): (p: Option<Protocol>)
    ensures p.None? <==> forall q | q in offered :: q !in supported
    ensures p.Some? ==> p.value in offered && p.value in supported
  {
    if offered == [] then None
    else if offered[0] in supported then Some(offered[0])
    else FirstCommon(offered[1..], supported)
  }

  lemma {:induction false} FirstCommonIndex(offered: seq<Protocol>, supported: seq<Protocol>) returns (i: nat)
    requires FirstCommon(offered, supported).Some?
    ensures i < |offered| && FirstCommon(offered, supported) == Some(offered[i]) && offered[i] in supported
    ensures forall j | 0 <= j < i :: offered[j] !in supported
  {
    if offered[0] in supported {
      i := 0;
    } else {
      i := FirstCommonIndex(offered[1..], supported);
      i := i + 1;
    }
  }

  lemma AcceptableExactlyWhenSupported(supported: seq<Protocol>, p: Protocol, position: int)
    ensures Acceptable(supported, Entry(p, position)) <==> p in supported
  {
    NamespacesDiffer(p);
    NamespacesDiffer(Din);
    NamespacesDiffer(Iso2);
    if Acceptable(supported, Entry(p, position)) {
      var q :| q in supported && Namespace(q) == Namespace(p);
      NamespacesDiffer(q);
    }
  }

  lemma {:induction false} FindsEntry(offered: seq<Protocol>, from: nat, i: nat)
    requires from <= i < |offered|
    ensures FindSchema(Entries(offered)[from..], Some(i + 1)) == Some(Entry(offered[i], i))
    decreases i - from
  {
    if from < i {
      FindsEntry(offered, from + 1, i);
    }
  }

  lemma {:induction false} NoneHasNoSchema(entries: seq<AppProtocol>)
    ensures FindSchema(entries, None).None?
  {
    if entries != [] {
      NoneHasNoSchema(entries[1..]);
    }
  }

  lemma PrefixChars(p: string, s: string)
    requires |p| >= 2
    ensures p <= s ==> |s| >= 2 && p[0] == s[0] && p[1] == s[1]
  {}

  /** The code for a failed negotiation does not contain "FAILED", and neither do the others. */
  lemma NoCodeSaysFailed(code: string)
    requires code in {OK, MINOR_DEVIATION, NO_NEGOTIATION}
    ensures !Contains(code, "FAILED")
  {
    assert forall i | 1 <= i < |code| :: code[i] != 'F';
    assert code[0] != 'F' || code[1] != 'A';
    forall i | 0 <= i <= |code| ensures !("FAILED" <= code[i..]) {
      PrefixChars("FAILED", code[i..]);
      assert i < |code| ==> code[i..][0] == code[i];
      assert i + 1 < |code| ==> code[i..][1] == code[i + 1];
    }
  }

  lemma SetupFollowsNamespace(p: Protocol)
    ensures Setup(p) ==
            if Namespace(p) == Namespace(Iso2) then SetupV2
            else if Namespace(p) == Namespace(Din) then SetupDin
            else SetupV20
  {
    NamespacesDiffer(p);
    NamespacesDiffer(Iso2);
    NamespacesDiffer(Din);
  }

  /**
   For every list of the EV and of the station both sides end with the same
   protocol, the first the EV offers that the station supports, and in the
   matching next state; without such a protocol both head for termination.
   */
  lemma {:induction false} BothSidesAgree(ev: seq<Protocol>, station: seq<Protocol>, tls: bool)
    requires |Offered(ev, tls)| <= 20
    ensures var offered := Offered(ev, tls);
            var request := Request(offered).value;
            var secc := Choose(station, request);
            var evcc := LookUp(request, secc.response);
            match FirstCommon(offered, station)
            case None => secc.next == evcc.next == Terminate && secc.protocol == evcc.protocol == None
            case Some(p) =>
              && secc.next == evcc.next == Setup(p) && secc.protocol == evcc.protocol == Some(p)
              && secc.response.code == "OK_SuccessfulNegotiation"
  {
    var offered := Offered(ev, tls);
    var request := Request(offered).value;
    var secc := Choose(station, request);
    NoCodeSaysFailed(secc.response.code);
    forall i | 0 <= i < |offered| ensures Acceptable(station, request[i]) <==> offered[i] in station {
      AcceptableExactlyWhenSupported(station, offered[i], i);
    }
    if FirstCommon(offered, station).None? {
      StationTakesTheBest(station, request, None);
      NoneHasNoSchema(request);
    } else {
      var i := FirstCommonIndex(offered, station);
      assert IsBest(station, request, i);
      StationTakesTheBest(station, request, Some(request[i]));
      assert request[0..] == request;
      FindsEntry(offered, 0, i);
      NamespacesDiffer(offered[i]);
      SetupFollowsNamespace(offered[i]);
    }
  }

  /** Acceptable is what has the namespace of a supported protocol and that protocol's major version. */
  lemma AcceptableExactly(supported: seq<Protocol>, e: AppProtocol)
    ensures Acceptable(supported, e) <==>
            exists p | p in supported :: Namespace(p) == e.ns && e.major == if p.Din? || p.Iso2? then 2 else 1
  {
    NamespacesDiffer(Din);
    NamespacesDiffer(Iso2);
    forall p | p in supported && Namespace(p) == e.ns
      ensures Acceptable(supported, e) <==> e.major == if p.Din? || p.Iso2? then 2 else 1
    {
      NamespacesDiffer(p);
    }
  }

  /**
   The station answers any request with the schema of its best entry, speaks the protocol of that
   entry's namespace from then on, and says so where the minor version is not its own. It turns
   down a request without an acceptable entry.
   */
  lemma {:induction false} StationAnswersExactly(supported: seq<Protocol>, s: seq<AppProtocol>, i: nat, p: Protocol)
    ensures IsBest(supported, s, i) && Namespace(p) == s[i].ns ==>
              Choose(supported, s) ==
              Secc(if p.Din? then SetupDin else if p.Iso2? then SetupV2 else SetupV20,
                   Response(if s[i].minor == 0 then "OK_SuccessfulNegotiation"
                            else "OK_SuccessfulNegotiationWithMinorDeviation", Some(s[i].schemaId)),
                   Some(p))
    ensures (forall k | 0 <= k < |s| :: !Acceptable(supported, s[k])) ==>
              Choose(supported, s) == Secc(Terminate, Response("Failed_NoNegotiation", None), None)
  {
    if IsBest(supported, s, i) && Namespace(p) == s[i].ns {
      StationTakesTheBest(supported, s, Some(s[i]));
      NamespacesDiffer(p);
      SetupFollowsNamespace(p);
    }
    if forall k | 0 <= k < |s| :: !Acceptable(supported, s[k]) {
      StationTakesTheBest(supported, s, None);
    }
  }

  lemma {:induction false} FindsNothing(entries: seq<AppProtocol>, id: Option<int>)
    requires forall e | e in entries :: Some(e.schemaId) != id
    ensures FindSchema(entries, id).None?
  {
    if entries != [] {
      FindsNothing(entries[1..], id);
    }
  }

  /** The EV takes up the offer that the schema counts to, whatever the code, unless that speaks of failure. */
  lemma {:induction false} VehicleFollowsTheSchema(offered: seq<Protocol>, r: Response)
    ensures var id := if r.schemaId.Some? then r.schemaId.value else 0;
            LookUp(Entries(offered), r) ==
            if Contains(r.code, "FAILED") || !(1 <= id <= |offered|) then Evcc(Terminate, None)
            else
              var p := offered[id - 1];
              Evcc(if p.Din? then SetupDin else if p.Iso2? then SetupV2 else SetupV20, Some(p))
  {
    var id := if r.schemaId.Some? then r.schemaId.value else 0;
    if 1 <= id <= |offered| {
      assert Entries(offered)[0..] == Entries(offered);
      FindsEntry(offered, 0, id - 1);
      NamespacesDiffer(offered[id - 1]);
      SetupFollowsNamespace(offered[id - 1]);
    } else {
      FindsNothing(Entries(offered), r.schemaId);
    }
  }

  function Count(s: seq<Protocol>, p: Protocol): nat {
    if s == [] then 0 else Count(s[1..], p) + if s[0] == p then 1 else 0
  }

  lemma {:induction false} CountedIsIn(s: seq<Protocol>, p: Protocol)
    ensures p in s <==> Count(s, p) >= 1
  {
    if s != [] {
      CountedIsIn(s[1..], p);
      assert p in s <==> p == s[0] || p in s[1..];
    }
  }

  lemma {:induction false} RemovedIsGone(s: seq<Protocol>, p: Protocol)
    ensures p in RemoveFirst(s, p) <==> Count(s, p) >= 2
  {
    if s != [] {
      if s[0] == p {
        CountedIsIn(s[1..], p);
      } else {
        RemovedIsGone(s[1..], p);
        assert p in RemoveFirst(s, p) <==> p in RemoveFirst(s[1..], p);
      }
    }
  }

  /** A common protocol comes first exactly when no protocol offered before it is common. */
  lemma {:induction false} FirstCommonExactly(offered: seq<Protocol>, station: seq<Protocol>, p: Protocol)
    ensures FirstCommon(offered, station) == Some(p) <==>
            && p in station
            && exists i: nat :: i < |offered| && offered[i] == p && forall j | 0 <= j < i :: offered[j] !in station
  {
    if FirstCommon(offered, station) == Some(p) {
      var i := FirstCommonIndex(offered, station);
    }
    if p in station {
      forall i: nat | i < |offered| && offered[i] == p && forall j | 0 <= j < i :: offered[j] !in station
        ensures FirstCommon(offered, station) == Some(p)
      {
        if i > 0 {
          assert forall j | 0 <= j < i - 1 :: offered[1..][j] == offered[j + 1];
          assert offered[1..][i - 1] == p;
          FirstCommonExactly(offered[1..], station, p);
        }
      }
    }
  }

  /**
   Under TLS, DIN SPEC 70121 is still offered if and only if the EV lists it more
   than once, and agreed on if and only if moreover the station has it and has
   nothing that is offered before it.
   */
  lemma {:induction false} DinUnderTlsExactly(ev: seq<Protocol>, station: seq<Protocol>)
    ensures Din in Offered(ev, true) <==> Count(ev, Din) >= 2
    ensures FirstCommon(Offered(ev, true), station) == Some(Din) <==>
            && Din in station && Count(ev, Din) >= 2
            && exists i: nat :: i < |Offered(ev, true)| && Offered(ev, true)[i] == Din
                                && forall j | 0 <= j < i :: Offered(ev, true)[j] !in station
  {
    RemovedIsGone(ev, Din);
    FirstCommonExactly(Offered(ev, true), station, Din);
  }

  // ---------------------------------------------------------------------
  // The states of the two sides
  // ---------------------------------------------------------------------

  class EvccSap {
    var supportedProtocols: seq<Protocol>
    var isTls: bool
    var supportedAppProtocols: seq<AppProtocol>
    var protocol: Option<Protocol>
    var nextState: NextState

    constructor (protocols: seq<Protocol>, tls: bool)
      ensures supportedProtocols == protocols && isTls == tls
    {
      supportedProtocols, isTls := protocols, tls;
      supportedAppProtocols, protocol, nextState := [], None, Terminate;
    }

    /** Under TLS the configured list itself loses its DIN entry, also for later sessions. */
    method CreateSap() returns (request: Option<seq<AppProtocol>>)
      modifies this`supportedProtocols, this`supportedAppProtocols
      ensures supportedProtocols == Offered(old(supportedProtocols), isTls)
      ensures request == Request(supportedProtocols)
      ensures supportedAppProtocols == if request.Some? then request.value else old(supportedAppProtocols)
    {
      if isTls {
        supportedProtocols := RemoveFirst(supportedProtocols, Din);
      }
      var entries: seq<AppProtocol> := [];
      var schemaId, priority := 0, 0;
      for i := 0 to |supportedProtocols|
        invariant schemaId == priority == i <= 20
        invariant entries == Entries(supportedProtocols[..i])
        invariant supportedProtocols == Offered(old(supportedProtocols), isTls)
        invariant supportedAppProtocols == old(supportedAppProtocols)
      {
        schemaId := schemaId + 1;
        priority := priority + 1;
        if priority > 20 {
          return None;
        }
        var p := supportedProtocols[i];
        entries := entries + [AppProtocol(Namespace(p), if p == Iso2 || p == Din then 2 else 1, 0, schemaId, priority)];
      }
      supportedAppProtocols := entries;
      assert supportedProtocols[..|supportedProtocols|] == supportedProtocols;
      return Some(entries);
    }

    method ProcessMessage(r: Response)
      modifies this`protocol, this`nextState
      ensures var outcome := LookUp(supportedAppProtocols, r);
              && nextState == outcome.next
              && protocol == if outcome.next == Terminate then old(protocol) else outcome.protocol
    {
      nextState := Terminate;
      if Contains(r.code, "FAILED") {
        return;
      }
      for i := 0 to |supportedAppProtocols|
        invariant FindSchema(supportedAppProtocols, r.schemaId) == FindSchema(supportedAppProtocols[i..], r.schemaId)
        invariant nextState == Terminate && protocol == old(protocol)
      {
        var e := supportedAppProtocols[i];
        if Some(e.schemaId) == r.schemaId {
          if e.ns == Namespace(Iso2) {
            protocol, nextState := Some(Iso2), SetupV2;
          } else if e.ns == Namespace(Din) {
            protocol, nextState := Some(Din), SetupDin;
          } else if ISO_V20_BASE <= e.ns {
            protocol, nextState := ByNamespace(e.ns), SetupV20;
          }
          return;
        }
      }
    }
  }

  class SeccSap {
    const supportedProtocols: seq<Protocol>
    var protocol: Option<Protocol>
    var nextState: NextState
    var response: Response

    constructor (supported: seq<Protocol>)
      ensures supportedProtocols == supported && protocol == None
    {
      supportedProtocols := supported;
      protocol, nextState, response := None, Terminate, Response(NO_NEGOTIATION, None);
    }

    method ProcessMessage(entries: seq<AppProtocol>)
      modifies this
      ensures var outcome := Choose(supportedProtocols, entries);
              && nextState == outcome.next && response == outcome.response
              && protocol == if outcome.next == Terminate then old(protocol) else outcome.protocol
    {
      var sorted := SortByPriority(entries);
      for i := 0 to |sorted|
        invariant FirstAcceptable(supportedProtocols, sorted) == FirstAcceptable(supportedProtocols, sorted[i..])
        invariant protocol == old(protocol)
      {
        var e := sorted[i];
        if exists p | p in supportedProtocols :: Namespace(p) == e.ns {
          var code := if e.minor == 0 then OK else MINOR_DEVIATION;
          if e.ns == Namespace(Iso2) && e.major == 2 {
            protocol, nextState, response := ByNamespace(e.ns), SetupV2, Response(code, Some(e.schemaId));
            return;
          }
          if e.ns == Namespace(Din) && e.major == 2 {
            NamespacesDiffer(Din);
            NamespacesDiffer(Iso2);
            protocol, nextState, response := ByNamespace(e.ns), SetupDin, Response(code, Some(e.schemaId));
            return;
          }
          if ISO_V20_BASE <= e.ns && e.major == 1 {
            NamespacesDiffer(Din);
            NamespacesDiffer(Iso2);
            protocol, nextState, response := ByNamespace(e.ns), SetupV20, Response(code, Some(e.schemaId));
            return;
          }
        }
      }
      nextState, response := Terminate, Response(NO_NEGOTIATION, None);
    }
  }
}
