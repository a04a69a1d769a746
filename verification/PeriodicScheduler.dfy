/**
 The timing of a periodic task: after each call the thread sleeps until the next
 multiple of the period after its creation, and not at all if that has passed.
 */
module PeriodicScheduler {

  /** created: t0 of the thread; first: when its first call began; work[k]: how long call k took. */
  datatype Timing = Timing(created: real, first: real, period: real, work: seq<real>)

  predicate Valid(t: Timing) {
    t.first >= t.created && t.period >= 0.0 && forall k | 0 <= k < |t.work| :: t.work[k] >= 0.0
  }

  function Due(t: Timing, k: nat): real {
    t.created + t.period * k as real
  }

  /** The start of call k with exact sleeping. */
  function Start(t: Timing, k: nat): real
    requires k <= |t.work|
  {
    if k == 0 then t.first
    else
      var finished := Start(t, k - 1) + t.work[k - 1];
      var delta := Due(t, k) - finished;
      if delta > 0.0 then finished + delta else finished
  }

  /** The work of calls j up to but not including k. */
  function Busy(t: Timing, j: nat, k: nat): real
    requires j <= k <= |t.work|
  {
    if j == k then 0.0 else Busy(t, j, k - 1) + t.work[k - 1]
  }

  /** The time call k would start if call j were the last to begin on its due time. */
  function Term(t: Timing, j: nat, k: nat): real
    requires j <= k <= |t.work|
  {
    (if j == 0 then t.first else Due(t, j)) + Busy(t, j, k)
  }

  /** The start of call k is the maximum over j <= k of due time j plus the work of calls j to k - 1. */
  lemma {:induction false} StartIsTheMaximum(t: Timing, k: nat) returns (j: nat)
    requires k <= |t.work|
    ensures j <= k && Start(t, k) == Term(t, j, k)
    ensures forall i | 0 <= i <= k :: Term(t, i, k) <= Start(t, k)
  {
    if k == 0 {
      j := 0;
    } else {
      j := StartIsTheMaximum(t, k - 1);
      forall i | 0 <= i < k ensures Term(t, i, k) <= Start(t, k) {
        assert Term(t, i, k) == Term(t, i, k - 1) + t.work[k - 1];
      }
      if Due(t, k) > Start(t, k - 1) + t.work[k - 1] {
        j := k;
      }
    }
  }

  /** No call begins before its due time. */
  lemma {:induction false} NeverEarly(t: Timing, k: nat)
    requires Valid(t) && k <= |t.work|
    ensures Start(t, k) >= Due(t, k)
  {
    if k > 0 {
      var _ := StartIsTheMaximum(t, k);
      assert Term(t, k, k) == Due(t, k);
    }
  }

  lemma QuotientAtLeast(period: real, n: real, d: real)
    requires period > 0.0 && period * n <= d
    ensures n <= d / period
  {
    var x := d / period;
    assert x * period == d;
    assert (x - n) * period == d - period * n;
    assert x < n ==> (x - n) * period < 0.0;
  }

  /** At most floor((at - t0) / period) + 1 calls have begun by any moment. */
  lemma {:induction false} CallsBegunBy(t: Timing, k: nat, at: real)
    requires Valid(t) && t.period > 0.0 && k <= |t.work| && Start(t, k) <= at
    ensures k + 1 <= ((at - t.created) / t.period).Floor + 1
  {
    NeverEarly(t, k);
    QuotientAtLeast(t.period, k as real, at - t.created);
  }

  function Late(t: Timing, k: nat): real
    requires k <= |t.work|
  {
    Start(t, k) - Due(t, k)
  }

  lemma OneMoreSlack(slack: real, n: nat)
    requires n > 0 && slack >= 0.0
    ensures slack * n as real == slack * (n - 1) as real + slack
    ensures slack * (n - 1) as real >= 0.0
  {}

  lemma NextLateness(t: Timing, k: nat)
    requires k < |t.work|
    ensures var later := Late(t, k) + t.work[k] - t.period;
            Late(t, k + 1) == if later > 0.0 then later else 0.0
  {
    assert t.period * (k + 1) as real == t.period * k as real + t.period;
  }

  /**
   Lateness does not accumulate: if from call k on every call leaves at least
   slack of its period unused, the lateness falls by that much with every call
   until the calls are on time again, and then they stay so.
   */
  lemma {:induction false} LatenessIsWorkedOff(t: Timing, k: nat, n: nat, slack: real)
    requires Valid(t) && k + n <= |t.work| && slack >= 0.0
    requires forall i | k <= i < k + n :: t.work[i] + slack <= t.period
    ensures 0.0 <= Late(t, k + n)
    ensures Late(t, k + n) <= if Late(t, k) >= slack * n as real then Late(t, k) - slack * n as real else 0.0
  {
    NeverEarly(t, k + n);
    if n > 0 {
      var last := k + n - 1;
      LatenessIsWorkedOff(t, k, n - 1, slack);
      NextLateness(t, last);
      assert t.work[last] + slack <= t.period;
      OneMoreSlack(slack, n);
    }
  }

  /** A task that never outlasts its period and is not late at first begins every call exactly on time. */
  lemma {:induction false} OnTime(t: Timing, k: nat)
    requires Valid(t) && k <= |t.work| && t.first == t.created
    requires forall i | 0 <= i < k :: t.work[i] <= t.period
    ensures Start(t, k) == Due(t, k)
  {
    LatenessIsWorkedOff(t, 0, k, 0.0);
  }

  class PeriodicSleeper {
    const created: real
    const period: real
    var i: nat

    constructor (now: real, p: real)
      ensures created == now && period == p && i == 0
    {
      created, period, i := now, p, 0;
    }

    /** The clock after sleeping, from the clock before. */
    method Sleep(now: real) returns (later: real)
      modifies this
      ensures i == old(i) + 1
      ensures later >= now && later >= created + period * i as real
      ensures later == now || later == created + period * i as real
    {
      i := i + 1;
      var delta := created + period * i as real - now;
      later := if delta > 0.0 then now + delta else now;
    }

    /** The thread's loop until its event is seen set after the given calls; starts is when each began. */
    method RunCalls(first: real, work: seq<real>) returns (starts: seq<real>)
      requires i == 0
      modifies this
      ensures i == |work| == |starts|
      ensures forall k | 0 <= k < |work| :: starts[k] == Start(Timing(created, first, period, work), k)
    {
      ghost var t := Timing(created, first, period, work);
      var now := first;
      starts := [];
      while i < |work|
        invariant i <= |work| && |starts| == i
        invariant now == Start(t, i)
        invariant forall k | 0 <= k < i :: starts[k] == Start(t, k)
      {
        starts := starts + [now];
        now := now + work[i];
        now := Sleep(now);
      }
    }
  }
}
