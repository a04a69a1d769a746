/**
 ISO-TP frame by frame: the bytes of every frame that is sent, and what a receiver makes of
 any frames at all, told from the frames alone.
 */
module IsoTpFrames {
  import opened Common
  import opened IsoTp

  // ---------------------------------------------------------------------
  // The frames that are sent
  // ---------------------------------------------------------------------

  /** Bytes from one position to another as far as they go, filled with zeros. */
  function Filled(p: seq<byte>, lo: nat, n: nat): seq<byte> {
    seq(n, i requires 0 <= i < n => if lo + i < |p| then p[lo + i] else 0)
  }

  lemma FilledLater(p: seq<byte>, n: nat, lo: nat)
    requires n <= |p|
    ensures Filled(p[n..], lo, 7) == Filled(p, n + lo, 7)
  {}

  lemma {:induction false} ConsecutiveBytes(rest: seq<byte>, s: byte, k: nat)
    requires k < |ConsecutiveFrames(rest, s)|
    ensures |ConsecutiveFrames(rest, s)[k]| == 8
    ensures ConsecutiveFrames(rest, s)[k][1..] == Filled(rest, 7 * k, 7)
    decreases k
  {
    if k > 0 {
      ConsecutiveBytes(Rest(rest), NextSeq(s), k - 1);
      FilledLater(rest, 7, 7 * (k - 1));
    }
  }

  /**
   A payload of more than seven bytes is sent in a first frame with the twelve bit length and six
   bytes, then in frames with a running number modulo 16 and the next seven bytes each.
   */
  lemma {:induction false} FramesOnTheBus(p: seq<byte>, k: nat)
    requires |p| > 7
    ensures |Segments(p)| == 1 + |p| / 7
    ensures Segments(p)[0] == [0x10 + |p| / 256 % 16, |p| % 256] + p[..6]
    ensures 0 < k <= |p| / 7 ==> Segments(p)[k] == [0x20 + k % 16] + Filled(p, 7 * k - 1, 7)
  {
    SegmentsAreSegments(p);
    if 0 < k <= |p| / 7 {
      ConsecutiveOnTheBus(p, k - 1);
    }
  }

  lemma ConsecutiveOnTheBus(p: seq<byte>, k: nat)
    requires |p| > 7 && k + 1 < |Segments(p)|
    ensures Segments(p)[k + 1] == [0x20 + (1 + k) % 16] + Filled(p, 6 + 7 * k, 7)
  {
    var f := ConsecutiveFrames(p[6..], 0x21)[k];
    assert Segments(p)[k + 1] == f;
    ConsecutiveBytes(p[6..], 0x21, k);
    SequenceNumbers(p[6..], 1, k);
    FilledLater(p, 6, 7 * k);
    assert f == [f[0]] + f[1..];
  }

  /** A shorter payload goes out in one frame, after its length. */
  lemma SingleOnTheBus(p: seq<byte>)
    requires |p| <= 7
    ensures SingleFrame(p) == [|p|] + Filled(p, 0, 7)
  {}

  // ---------------------------------------------------------------------
  // The frames that are received
  // ---------------------------------------------------------------------

  predicate IsFirst(d: seq<byte>) {
    |d| >= 2 && d[0] / 16 == 1
  }

  predicate IsConsecutive(d: seq<byte>) {
    |d| >= 2 && d[0] / 16 == 2
  }

  /** What has arrived since the last first frame, and how much that frame has announced. */
  datatype Arrived = Nothing | Arrived(bytes: seq<byte>, announced: nat)

  function Since(frames: seq<seq<byte>>): Arrived {
    if frames == [] then Nothing
    else
      var d, before := frames[|frames| - 1], Since(frames[..|frames| - 1]);
      if IsFirst(d) then
        var high: int, low: int := d[0], d[1];
        Arrived(Slice(d, 2, 8), (high - 0x10) * 256 + low)
      else if IsConsecutive(d) && before.Arrived? then before.(bytes := before.bytes + Slice(d, 1, 8))
      else before
  }

  /** All that was announced has arrived. */
  predicate Complete(a: Arrived) {
    a.Arrived? ==> |a.bytes| >= a.announced
  }

  /** The receiver collects exactly while something announced has not arrived. */
  lemma {:induction false} CollectsExactly(frames: seq<seq<byte>>)
    ensures var a := Since(frames);
            Feed(Idle, frames).rx == if Complete(a) then Idle else Pending(a.bytes, a.announced)
  {
    if frames != [] {
      var init, d := frames[..|frames| - 1], frames[|frames| - 1];
      assert frames == init + [d];
      CollectsExactly(init);
      FeedLast(Idle, init, d);
    }
  }

  /**
   For any frames, a further frame completes a payload if and only if it is a first or consecutive
   frame with which all that the last first frame has announced, at least two bytes, has arrived,
   and had not before; the payload is then the announced part of what arrived since.
   */
  lemma {:induction false} DeliversExactly(frames: seq<seq<byte>>, d: seq<byte>, p: seq<byte>)
    ensures var before, after := Since(frames), Since(frames + [d]);
            Feed(Idle, frames + [d]).payloads == Feed(Idle, frames).payloads + [p] <==>
            && (IsFirst(d) || (IsConsecutive(d) && !Complete(before)))
            && Complete(after) && after.announced >= 2 && p == after.bytes[..after.announced]
  {
    assert (frames + [d])[..|frames|] == frames;
    CollectsExactly(frames);
    FeedLast(Idle, frames, d);
    var payloads, t := Feed(Idle, frames).payloads, Take(Feed(Idle, frames).rx, d);
    assert |Feed(Idle, frames + [d]).payloads| == |payloads| + |Completed(t)|;
    assert t.payload.Some? ==> (payloads + Completed(t))[|payloads|] == t.payload.value;
    assert (payloads + [p])[|payloads|] == p;
  }
}
