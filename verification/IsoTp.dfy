/**
 ISO-TP transport as the ECU simulator implements it: segmentation with a
 wrapping sequence nibble, and reassembly that looks at frame types only
 (section 9.6 of ISO 15765-2:2016).
 */
module IsoTp {
  import opened Common

  const MAX_LENGTH: nat := 4095

  // ---------------------------------------------------------------------
  // Sending
  // ---------------------------------------------------------------------

  function SingleFrame(p: seq<byte>): (f: seq<byte>)
    requires |p| <= 7
    ensures |f| == 8
  {
    [|p|] + p + Zeros(7 - |p|)
  }

  /** The announced length has twelve bits. */
  function FirstFrame(p: seq<byte>): (f: seq<byte>)
    requires |p| > 7
    ensures |f| == 8
  {
    [0x10 + (|p| / 256) % 16, |p| % 256] + p[..6]
  }

  function NextSeq(s: byte): byte {
    (s % 16 + 1) % 16 + 0x20
  }

  function ConsecutiveFrame(s: byte, rest: seq<byte>): (f: seq<byte>)
    ensures |f| == 8 && f[0] == s
  {
    var chunk := Slice(rest, 0, 7);
    [s] + chunk + Zeros(7 - |chunk|)
  }

  /** What is left after the bytes of one consecutive frame. */
  function Rest(rest: seq<byte>): (r: seq<byte>)
    ensures rest != [] ==> |r| < |rest|
  {
    if |rest| <= 7 then [] else rest[7..]
  }

  /** All consecutive frames for the bytes still to be sent. */
  function ConsecutiveFrames(rest: seq<byte>, s: byte): seq<seq<byte>>
    decreases |rest|
  {
    if rest == [] then [] else [ConsecutiveFrame(s, rest)] + ConsecutiveFrames(Rest(rest), NextSeq(s))
  }

  /** The frames that carry a payload of more than seven bytes. */
  function Segments(p: seq<byte>): seq<seq<byte>>
    requires |p| > 7
  {
    [FirstFrame(p)] + ConsecutiveFrames(p[6..], 0x21)
  }

  /** The k-th consecutive frame, counted from one, carries 0x20 | (k mod 16). */
  lemma {:induction false} SequenceNumbers(rest: seq<byte>, first: nat, k: nat)
    requires k < |ConsecutiveFrames(rest, 0x20 + first % 16)|
    ensures var f := ConsecutiveFrames(rest, 0x20 + first % 16)[k];
            |f| == 8 && f[0] == 0x20 + (first + k) % 16
    decreases k
  {
    if k > 0 {
      NextSeqCounts(first);
      SequenceNumbers(Rest(rest), first + 1, k - 1);
    }
  }

  lemma NextSeqCounts(n: nat)
    ensures NextSeq(0x20 + n % 16) == 0x20 + (n + 1) % 16
  {}

  // ---------------------------------------------------------------------
  // Receiving
  // ---------------------------------------------------------------------

  datatype Rx = Idle | Pending(buffer: seq<byte>, total: nat)

  /** The state and the completed payload after a frame; payloads below two bytes are dropped. */
  datatype Taken = Taken(rx: Rx, payload: Option<seq<byte>>)

  /** Reassembly ends as soon as the announced number of bytes has arrived. */
  function Collect(buffer: seq<byte>, total: nat): (t: Taken)
    ensures t.payload.Some? ==> 2 <= |t.payload.value| == total && t.payload.value <= buffer
  {
    if |buffer| < total then Taken(Pending(buffer, total), None)
    else Taken(Idle, if total < 2 then None else Some(buffer[..total]))
  }

  function FrameType(d: seq<byte>): nat
    requires |d| > 0
  {
    d[0] / 16
  }

  /** A frame that reassembly reacts to. */
  predicate IsSegment(d: seq<byte>) {
    |d| >= 2 && (FrameType(d) == 1 || FrameType(d) == 2)
  }

  /** FF_DL: the twelve bit length of a first frame. */
  function Announced(d: seq<byte>): (n: nat)
    requires |d| >= 2
    ensures n <= MAX_LENGTH
  {
    var high: int, low: int := d[0], d[1];
    high % 16 * 256 + low
  }

  /** One frame; sequence numbers are not looked at, and a first frame always starts over. */
  function Take(rx: Rx, d: seq<byte>): (t: Taken)
    ensures t.payload.Some? ==> |t.payload.value| >= 2 && t.rx.Idle?
  {
    if !IsSegment(d) then Taken(rx, None)
    else if FrameType(d) == 1 then Collect(Slice(d, 2, 8), Announced(d))
    else if rx.Pending? then Collect(rx.buffer + Slice(d, 1, 8), rx.total)
    else Taken(rx, None)
  }

  datatype Fed = Fed(rx: Rx, payloads: seq<seq<byte>>)

  /** A whole sequence of frames, and the payloads completed on the way. */
  function Feed(rx: Rx, frames: seq<seq<byte>>): Fed
    decreases |frames|
  {
    if frames == [] then Fed(rx, [])
    else
      var t := Take(rx, frames[0]);
      var after := Feed(t.rx, frames[1..]);
      Fed(after.rx, Completed(t) + after.payloads)
  }

  function Completed(t: Taken): seq<seq<byte>> {
    if t.payload.Some? then [t.payload.value] else []
  }

  lemma {:induction false} FeedLast(rx: Rx, frames: seq<seq<byte>>, f: seq<byte>)
    ensures var before := Feed(rx, frames);
            var t := Take(before.rx, f);
            Feed(rx, frames + [f]) == Fed(t.rx, before.payloads + Completed(t))
    decreases |frames|
  {
    if frames == [] {
      assert frames + [f] == [f];
    } else {
      var t := Take(rx, frames[0]);
      assert (frames + [f])[1..] == frames[1..] + [f];
      FeedLast(t.rx, frames[1..], f);
    }
  }

  /** While reassembly is pending its buffer is shorter than the announced length of at most 4095. */
  ghost predicate RxValid(rx: Rx) {
    rx.Pending? ==> |rx.buffer| < rx.total <= MAX_LENGTH
  }

  lemma TakeValid(rx: Rx, d: seq<byte>)
    requires RxValid(rx)
    ensures RxValid(Take(rx, d).rx)
  {}

  // ---------------------------------------------------------------------
  // The two directions together
  // ---------------------------------------------------------------------

  lemma {:induction false} ConsecutiveAreSegments(rest: seq<byte>, s: byte)
    requires s / 16 == 2
    ensures |ConsecutiveFrames(rest, s)| == (|rest| + 6) / 7
    ensures forall f | f in ConsecutiveFrames(rest, s) :: IsSegment(f) && FrameType(f) == 2 && |f| == 8
    decreases |rest|
  {
    if rest != [] {
      ConsecutiveAreSegments(Rest(rest), NextSeq(s));
    }
  }

  lemma SegmentsAreSegments(p: seq<byte>)
    requires |p| > 7
    ensures |Segments(p)| == 1 + |p| / 7
    ensures forall f | f in Segments(p) :: IsSegment(f) && |f| == 8
  {
    ConsecutiveAreSegments(p[6..], 0x21);
  }

  lemma NextSeqIsConsecutive(s: byte)
    ensures NextSeq(s) / 16 == 2
  {}

  lemma {:induction false} FeedFirst(rx: Rx, f: seq<byte>, frames: seq<seq<byte>>)
    ensures var t := Take(rx, f);
            var after := Feed(t.rx, frames);
            Feed(rx, [f] + frames) == Fed(after.rx, Completed(t) + after.payloads)
  {
    assert ([f] + frames)[1..] == frames;
  }

  /** What feeding a pending receiver gives: all of the bytes if they are complete, and nothing yet otherwise. */
  ghost predicate Delivers(fed: Fed, buffer: seq<byte>, rest: seq<byte>, complete: bool) {
    if complete then fed == Fed(Idle, [buffer + rest]) else fed.payloads == [] && fed.rx.Pending?
  }

  lemma LastConsecutive(buffer: seq<byte>, rest: seq<byte>, s: byte)
    requires s / 16 == 2 && 0 < |rest| <= 7 && |buffer| + |rest| >= 2
    ensures Take(Pending(buffer, |buffer| + |rest|), ConsecutiveFrame(s, rest)) == Taken(Idle, Some(buffer + rest))
  {
    var f := ConsecutiveFrame(s, rest);
    assert Slice(f, 1, 8) == rest + Zeros(7 - |rest|);
    assert (buffer + Slice(f, 1, 8))[..|buffer| + |rest|] == buffer + rest;
  }

  lemma FeedLastConsecutive(buffer: seq<byte>, rest: seq<byte>, s: byte)
    requires s / 16 == 2 && 0 < |rest| <= 7 && |buffer| + |rest| >= 2
    ensures Delivers(Feed(Pending(buffer, |buffer| + |rest|), [ConsecutiveFrame(s, rest)]), buffer, rest, true)
  {
    LastConsecutive(buffer, rest, s);
    FeedFirst(Pending(buffer, |buffer| + |rest|), ConsecutiveFrame(s, rest), []);
    assert [ConsecutiveFrame(s, rest)] == [ConsecutiveFrame(s, rest)] + [];
  }

  lemma EarlierConsecutive(buffer: seq<byte>, rest: seq<byte>, s: byte, total: nat)
    requires s / 16 == 2 && |rest| > 7 && total == |buffer| + |rest|
    ensures Take(Pending(buffer, total), ConsecutiveFrame(s, rest)) == Taken(Pending(buffer + rest[..7], total), None)
  {
    assert Slice(ConsecutiveFrame(s, rest), 1, 8) == rest[..7];
  }

  lemma {:induction false} FeedEarlierConsecutive(buffer: seq<byte>, rest: seq<byte>, s: byte, others: seq<seq<byte>>)
    requires s / 16 == 2 && |rest| > 7
    ensures var total := |buffer| + |rest|;
            Feed(Pending(buffer, total), [ConsecutiveFrame(s, rest)] + others) ==
            Feed(Pending(buffer + rest[..7], total), others)
  {
    EarlierConsecutive(buffer, rest, s, |buffer| + |rest|);
    FeedFirst(Pending(buffer, |buffer| + |rest|), ConsecutiveFrame(s, rest), others);
  }

  lemma DeliversMore(fed: Fed, buffer: seq<byte>, rest: seq<byte>, complete: bool)
    requires |rest| > 7 && Delivers(fed, buffer + rest[..7], rest[7..], complete)
    ensures Delivers(fed, buffer, rest, complete)
  {
    assert buffer + rest[..7] + rest[7..] == buffer + rest;
  }

  /** The frames that follow the first of several consecutive frames. */
  lemma {:induction false} ConsecutiveSplit(rest: seq<byte>, s: byte, k: nat)
    requires rest != [] && 0 < k <= |ConsecutiveFrames(rest, s)|
    ensures k - 1 <= |ConsecutiveFrames(Rest(rest), NextSeq(s))| == |ConsecutiveFrames(rest, s)| - 1
    ensures ConsecutiveFrames(rest, s)[..k] ==
            [ConsecutiveFrame(s, rest)] + ConsecutiveFrames(Rest(rest), NextSeq(s))[..k - 1]
  {
    var f, others := ConsecutiveFrame(s, rest), ConsecutiveFrames(Rest(rest), NextSeq(s));
    assert ConsecutiveFrames(rest, s) == [f] + others;
  }

  /** The first k consecutive frames add their bytes to a pending buffer; the last of them completes it. */
  lemma {:induction false} FeedConsecutive(buffer: seq<byte>, rest: seq<byte>, s: byte, k: nat, frames: seq<seq<byte>>)
    requires s / 16 == 2 && rest != [] && |buffer| + |rest| >= 2
    requires k <= |ConsecutiveFrames(rest, s)| && frames == ConsecutiveFrames(rest, s)[..k]
    ensures Delivers(Feed(Pending(buffer, |buffer| + |rest|), frames), buffer, rest, k == |ConsecutiveFrames(rest, s)|)
    decreases |rest|
  {
    if k > 0 {
      var others := ConsecutiveFrames(Rest(rest), NextSeq(s))[..k - 1];
      ConsecutiveSplit(rest, s, k);
      if |rest| <= 7 {
        assert frames == [ConsecutiveFrame(s, rest)];
        FeedLastConsecutive(buffer, rest, s);
      } else {
        NextSeqIsConsecutive(s);
        FeedEarlierConsecutive(buffer, rest, s, others);
        FeedConsecutive(buffer + rest[..7], rest[7..], NextSeq(s), k - 1, others);
        DeliversMore(Feed(Pending(buffer, |buffer| + |rest|), frames), buffer, rest, k == |ConsecutiveFrames(rest, s)|);
      }
    }
  }

  /** All consecutive frames of a payload complete what its first frame began. */
  lemma RestDelivers(p: seq<byte>)
    requires |p| > 7
    ensures Feed(Pending(p[..6], |p|), ConsecutiveFrames(p[6..], 0x21)) == Fed(Idle, [p])
  {
    var frames := ConsecutiveFrames(p[6..], 0x21);
    assert frames[..|frames|] == frames;
    FeedConsecutive(p[..6], p[6..], 0x21, |frames|, frames);
    assert p[..6] + p[6..] == p;
  }

  lemma FirstFrameStarts(rx: Rx, p: seq<byte>)
    requires |p| > 7
    ensures IsSegment(FirstFrame(p)) && FrameType(FirstFrame(p)) == 1
    ensures |p| <= MAX_LENGTH ==> Take(rx, FirstFrame(p)) == Taken(Pending(p[..6], |p|), None)
  {
    assert Slice(FirstFrame(p), 2, 8) == p[..6];
  }

  /** Once a frame has started a transfer, the consecutive frames complete it. */
  lemma {:induction false} StartedTransfer(rx: Rx, first: seq<byte>, p: seq<byte>, k: nat)
    requires |p| > 7 && k <= |ConsecutiveFrames(p[6..], 0x21)|
    requires Take(rx, first) == Taken(Pending(p[..6], |p|), None)
    ensures var fed := Feed(rx, [first] + ConsecutiveFrames(p[6..], 0x21)[..k]);
            if k == |ConsecutiveFrames(p[6..], 0x21)| then fed == Fed(Idle, [p]) else fed.payloads == []
  {
    var frames := ConsecutiveFrames(p[6..], 0x21)[..k];
    FeedConsecutive(p[..6], p[6..], 0x21, k, frames);
    FeedFirst(rx, first, frames);
    assert p[..6] + p[6..] == p;
  }

  /**
   Whatever the receiver was doing before, the segments of a payload of at most
   4095 bytes make it deliver that payload with the last of them and nothing earlier.
   */
  lemma {:induction false} DeliveredWithTheLastFrame(rx: Rx, p: seq<byte>, k: nat)
    requires 7 < |p| <= MAX_LENGTH && k <= |Segments(p)|
    ensures Feed(rx, Segments(p)[..k]).payloads == if k == |Segments(p)| then [p] else []
    ensures k == |Segments(p)| ==> Feed(rx, Segments(p)[..k]).rx == Idle
  {
    if k > 0 {
      var first, others := FirstFrame(p), ConsecutiveFrames(p[6..], 0x21);
      FirstFrameStarts(rx, p);
      StartedTransfer(rx, first, p, k - 1);
      assert Segments(p)[..k] == [first] + others[..k - 1];
    }
  }

  /** No payload ever delivered is longer than what twelve bits can announce. */
  lemma {:induction false} DeliveriesAreShort(rx: Rx, frames: seq<seq<byte>>)
    requires RxValid(rx)
    ensures forall q | q in Feed(rx, frames).payloads :: |q| <= MAX_LENGTH
    ensures RxValid(Feed(rx, frames).rx)
    decreases |frames|
  {
    if frames != [] {
      TakeValid(rx, frames[0]);
      DeliveriesAreShort(Take(rx, frames[0]).rx, frames[1..]);
    }
  }

  /** The segments of a payload make a receiver deliver exactly it if and only if it has at most 4095 bytes. */
  lemma {:induction false} RoundTrip(rx: Rx, p: seq<byte>)
    requires |p| > 7 && RxValid(rx)
    ensures Feed(rx, Segments(p)).payloads == [p] <==> |p| <= MAX_LENGTH
  {
    assert Segments(p)[..|Segments(p)|] == Segments(p);
    if |p| <= MAX_LENGTH {
      DeliveredWithTheLastFrame(rx, p, |Segments(p)|);
    } else {
      DeliveriesAreShort(rx, Segments(p));
    }
  }
}
