/**
 The charging schedule a station offers under ISO 15118-2 and the profile the EV
 derives from it. Both are step functions of the time since the schedule began.
 */
module ChargingSchedule {
  import opened Common

  const DAY: nat := 86400

  /** Limits of the message definitions. */
  const MAX_TARIFF_ENTRIES: nat := 102
  const MAX_PROFILE_ENTRIES: nat := 24

  datatype Interval = Interval(start: nat, duration: Option<nat>)

  datatype PMaxEntry = PMaxEntry(pMax: nat, interval: Interval)

  datatype TariffEntry = TariffEntry(priceLevel: nat, interval: Interval)

  datatype ProfileEntry = ProfileEntry(start: nat, maxPower: nat)

  // ---------------------------------------------------------------------
  // The station's schedule
  // ---------------------------------------------------------------------

  /** Without a departure time the schedule covers one day. */
  function Horizon(departure: nat): (d: nat)
    ensures d > 0
  {
    if departure == 0 then DAY else departure
  }

  function Days(d: nat): nat {
    (d + DAY - 1) / DAY
  }

  /** Entry k of a schedule for d seconds. */
  function Piece(d: nat, k: nat): PMaxEntry
    requires k < Days(d)
  {
    PMaxEntry(Offer(k), Interval(DAY * k, if k == Days(d) - 1 then Some(d - DAY * k) else None))
  }

  function Offer(day: nat): nat {
    if day % 2 == 0 then 11000 else 7000
  }

  function Schedule(d: nat): (entries: seq<PMaxEntry>)
    ensures |entries| == Days(d)
  {
    seq(Days(d), k requires 0 <= k < Days(d) => Piece(d, k))
  }

  function Tariff(d: nat): seq<TariffEntry> {
    seq(Days(d), k requires 0 <= k < Days(d) => TariffEntry(k + 1, Piece(d, k).interval))
  }

  /** More entries than a tariff may have do not pass validation, whether or not the tariff is offered. */
  method GetSaScheduleList(departure: nat) returns (result: Option<(seq<PMaxEntry>, seq<TariffEntry>)>)
    ensures result.Some? <==> departure <= 102 * 86400
    ensures result.Some? ==> result.value == (Schedule(Horizon(departure)), Tariff(Horizon(departure)))
  {
    var horizon := if departure == 0 then DAY else departure;
    var schedule: seq<PMaxEntry> := [];
    var tariff: seq<TariffEntry> := [];
    var remaining: int := horizon;
    var counter: nat, start: nat := 1, 0;
    var currentPMax := 7000;
    while remaining > 0
      invariant counter == |schedule| + 1 && |schedule| == |tariff| <= Days(horizon)
      invariant start == DAY * |schedule| && remaining == horizon - start
      invariant currentPMax == if |schedule| % 2 == 0 then 7000 else 11000
      invariant remaining <= 0 <==> |schedule| == Days(horizon)
      invariant forall k | 0 <= k < |schedule| :: schedule[k] == Piece(horizon, k)
      invariant forall k | 0 <= k < |schedule| :: tariff[k] == TariffEntry(k + 1, Piece(horizon, k).interval)
    {
      var pMax;
      if currentPMax == 7000 {
        pMax, currentPMax := 11000, 11000;
      } else {
        pMax, currentPMax := 7000, 7000;
      }
      var interval := Interval(start, None);
      if remaining <= DAY {
        interval := Interval(start, Some(remaining));
      }
      schedule := schedule + [PMaxEntry(pMax, interval)];
      tariff := tariff + [TariffEntry(counter, interval)];
      remaining := remaining - DAY;
      start := start + DAY;
      counter := counter + 1;
    }
    if |tariff| > MAX_TARIFF_ENTRIES {
      return None;
    }
    assert schedule == Schedule(horizon) && tariff == Tariff(horizon);
    return Some((schedule, tariff));
  }

  // ---------------------------------------------------------------------
  // What a schedule offers at each instant
  // ---------------------------------------------------------------------

  /** Entry k is in force from its start until its duration is over, or else until the next entry starts. */
  predicate InForce(s: seq<PMaxEntry>, k: nat, t: nat) {
    && k < |s| && s[k].interval.start <= t
    && match s[k].interval.duration
       case Some(d) => t < s[k].interval.start + d
       case None => k + 1 < |s| ==> t < s[k + 1].interval.start
  }

  /** Starts increase, and only the last entry has a duration, which is positive. */
  predicate WellFormed(s: seq<PMaxEntry>) {
    && s != []
    && (forall k | 0 <= k < |s| - 1 :: s[k].interval.duration == None && s[k].interval.start < s[k + 1].interval.start)
    && s[|s| - 1].interval.duration.Some? && s[|s| - 1].interval.duration.value > 0
  }

  function End(s: seq<PMaxEntry>): nat
    requires WellFormed(s)
  {
    s[|s| - 1].interval.start + s[|s| - 1].interval.duration.value
  }

  lemma DaysAreCeiling(d: nat)
    requires d > 0
    ensures DAY * (Days(d) - 1) < d <= DAY * Days(d)
  {}

  lemma ScheduleIsWellFormed(d: nat)
    requires d > 0
    ensures WellFormed(Schedule(d)) && End(Schedule(d)) == d
    ensures Schedule(d)[0].interval.start == 0
    ensures 0 < Schedule(d)[|Schedule(d)| - 1].interval.duration.value <= DAY
  {
    DaysAreCeiling(d);
    assert Schedule(d)[|Schedule(d)| - 1] == Piece(d, Days(d) - 1);
  }

  /** The entries tile [0, d): before d exactly the entry of the day is in force, and none from d on. */
  lemma ScheduleTiles(d: nat, t: nat, k: nat)
    requires d > 0
    ensures InForce(Schedule(d), k, t) <==> t < d && k == t / 86400
    ensures t < d ==> && t / 86400 < |Schedule(d)|
                      && Schedule(d)[t / 86400].pMax == if (t / 86400) % 2 == 0 then 11000 else 7000
  {
    DaysAreCeiling(d);
  }

  /** The tariff has the intervals of the schedule; its price level is one on the first day and rises by one a day. */
  lemma TariffFollowsSchedule(d: nat, t: nat, k: nat)
    requires d > 0
    ensures |Tariff(d)| == |Schedule(d)|
    ensures k < |Tariff(d)| ==> Tariff(d)[k].interval == Schedule(d)[k].interval
    ensures InForce(Schedule(d), k, t) ==> k < |Tariff(d)| && Tariff(d)[k].priceLevel == t / 86400 + 1
  {
    ScheduleTiles(d, t, k);
  }

  // ---------------------------------------------------------------------
  // The EV's profile
  // ---------------------------------------------------------------------

  /** The profile entries made of one schedule entry. */
  function Converted(e: PMaxEntry): seq<ProfileEntry> {
    [ProfileEntry(e.interval.start, e.pMax)] +
    if e.interval.duration.Some? && e.interval.duration.value > 0
    then [ProfileEntry(e.interval.start + e.interval.duration.value, 0)] else []
  }

  function Profile(s: seq<PMaxEntry>): seq<ProfileEntry> {
    if s == [] then [] else Profile(s[..|s| - 1]) + Converted(s[|s| - 1])
  }

  /** The power the profile allows: that of the last entry that has started. */
  function PowerAt(p: seq<ProfileEntry>, t: nat): nat {
    if p == [] then 0
    else if p[|p| - 1].start <= t then p[|p| - 1].maxPower
    else PowerAt(p[..|p| - 1], t)
  }

  /** The last tuple offered is taken; an error is raised where there is none or the profile is too long. */
  method ProcessSaSchedules(schedules: seq<seq<PMaxEntry>>) returns (result: Option<seq<ProfileEntry>>)
    ensures schedules == [] ==> result == None
    ensures schedules != [] ==>
              var profile := Profile(schedules[|schedules| - 1]);
              result == if |profile| > MAX_PROFILE_ENTRIES then None else Some(profile)
  {
    if schedules == [] {
      return None;
    }
    var schedule := schedules[|schedules| - 1];
    var profile: seq<ProfileEntry> := [];
    for k := 0 to |schedule|
      invariant profile == Profile(schedule[..k])
    {
      var e := schedule[k];
      profile := profile + [ProfileEntry(e.interval.start, e.pMax)];
      if e.interval.duration.Some? && e.interval.duration.value != 0 {
        profile := profile + [ProfileEntry(e.interval.start + e.interval.duration.value, 0)];
      }
      assert schedule[..k + 1][..k] == schedule[..k];
    }
    assert schedule[..|schedule|] == schedule;
    if |profile| > MAX_PROFILE_ENTRIES {
      return None;
    }
    return Some(profile);
  }

  /** Without durations the profile repeats the schedule entry by entry. */
  lemma {:induction false} ProfileOfOpen(s: seq<PMaxEntry>)
    requires forall k | 0 <= k < |s| :: s[k].interval.duration == None
    ensures |Profile(s)| == |s|
    ensures forall k | 0 <= k < |s| :: Profile(s)[k] == ProfileEntry(s[k].interval.start, s[k].pMax)
  {
    if s != [] {
      ProfileOfOpen(s[..|s| - 1]);
    }
  }

  /** The profile has one entry more than the schedule: the same steps, and zero from the end on. */
  lemma {:induction false} ProfileEntries(s: seq<PMaxEntry>)
    requires WellFormed(s)
    ensures var p := Profile(s);
            && |p| == |s| + 1
            && (forall k | 0 <= k < |s| :: p[k] == ProfileEntry(s[k].interval.start, s[k].pMax))
            && p[|s|] == ProfileEntry(End(s), 0)
            && forall k | 0 <= k < |s| :: p[k].start < p[k + 1].start
  {
    ProfileOfOpen(s[..|s| - 1]);
  }

  lemma {:induction false} StartsIncrease(p: seq<ProfileEntry>, i: nat, j: nat)
    requires i < j < |p| && forall k | 0 <= k < |p| - 1 :: p[k].start < p[k + 1].start
    ensures p[i].start < p[j].start
    decreases j - i
  {
    if i + 1 < j {
      StartsIncrease(p, i + 1, j);
    }
  }

  lemma {:induction false} PowerIsThatOfEntry(p: seq<ProfileEntry>, k: nat, t: nat)
    requires k < |p| && p[k].start <= t
    requires forall j | k < j < |p| :: t < p[j].start
    ensures PowerAt(p, t) == p[k].maxPower
    decreases |p|
  {
    if k < |p| - 1 {
      PowerIsThatOfEntry(p[..|p| - 1], k, t);
    }
  }

  lemma {:induction false} NothingStarted(p: seq<ProfileEntry>, t: nat)
    requires forall j | 0 <= j < |p| :: t < p[j].start
    ensures PowerAt(p, t) == 0
  {
    if p != [] {
      NothingStarted(p[..|p| - 1], t);
    }
  }

  /** For any well-formed schedule the profile follows the entry in force, and is zero where none is. */
  lemma {:induction false} ProfileFollowsSchedule(s: seq<PMaxEntry>, t: nat)
    requires WellFormed(s)
    ensures forall k: nat | InForce(s, k, t) :: PowerAt(Profile(s), t) == s[k].pMax
    ensures (forall k: nat :: !InForce(s, k, t)) ==> PowerAt(Profile(s), t) == 0
  {
    var p := Profile(s);
    ProfileEntries(s);
    forall k: nat | InForce(s, k, t) ensures PowerAt(p, t) == s[k].pMax {
      forall j | k < j < |p| ensures t < p[j].start {
        if j > k + 1 { StartsIncrease(p, k + 1, j); }
      }
      PowerIsThatOfEntry(p, k, t);
    }
    if forall k: nat :: !InForce(s, k, t) {
      if End(s) <= t {
        PowerIsThatOfEntry(p, |s|, t);
      } else {
        NothingInForce(s, t, |s|);
        NothingStarted(p, t);
      }
    }
  }

  lemma {:induction false} NothingInForce(s: seq<PMaxEntry>, t: nat, n: nat)
    requires WellFormed(s) && n <= |s| && t < End(s)
    requires forall k: nat :: !InForce(s, k, t)
    ensures forall k | |s| - n <= k < |s| :: t < s[k].interval.start
  {
    if n > 0 {
      NothingInForce(s, t, n - 1);
      assert !InForce(s, |s| - n, t);
    }
  }

  /**
   For every departure time the profile has strictly increasing starts, equals
   the offered power at every instant before departure and is zero from then on.
   */
  lemma {:induction false} ProfileAgreesWithOffer(departure: nat, t: nat)
    ensures var d := Horizon(departure);
            PowerAt(Profile(Schedule(d)), t) ==
            if t >= d then 0 else if (t / 86400) % 2 == 0 then 11000 else 7000
    ensures var p := Profile(Schedule(Horizon(departure)));
            forall i, j | 0 <= i < j < |p| :: p[i].start < p[j].start
  {
    var d := Horizon(departure);
    var s := Schedule(d);
    ScheduleIsWellFormed(d);
    ProfileFollowsSchedule(s, t);
    forall k: nat ensures InForce(s, k, t) <==> t < d && k == t / DAY {
      ScheduleTiles(d, t, k);
    }
    ScheduleTiles(d, t, t / DAY);
    ProfileEntries(s);
    var p := Profile(s);
    forall i, j | 0 <= i < j < |p| ensures p[i].start < p[j].start {
      StartsIncrease(p, i, j);
    }
  }

  /** The EV can answer with its profile exactly when departure is at most 23 days away. */
  lemma ProfileFitsExactly(departure: nat)
    ensures |Profile(Schedule(Horizon(departure)))| <= MAX_PROFILE_ENTRIES <==> departure <= 23 * 86400
  {
    var d := Horizon(departure);
    ScheduleIsWellFormed(d);
    ProfileEntries(Schedule(d));
    DaysAreCeiling(d);
  }

  /** The station's own check of a schedule it is about to send; the last entry is to have a duration. */
  predicate IsAccepted(s: seq<PMaxEntry>, departure: nat)
    requires s != [] && s[|s| - 1].interval.duration.Some?
  {
    var covered := s[|s| - 1].interval.start - s[0].interval.start + s[|s| - 1].interval.duration.value;
    if departure == 0 then covered >= DAY else covered <= departure
  }

  /** In a well-formed schedule some entry is in force exactly from the first start until the end. */
  lemma InForceExactly(s: seq<PMaxEntry>, t: nat)
    requires WellFormed(s)
    ensures (exists k: nat :: InForce(s, k, t)) <==> s[0].interval.start <= t < End(s)
  {
    if s[0].interval.start <= t < End(s) && forall k: nat :: !InForce(s, k, t) {
      NothingInForce(s, t, |s|);
    }
    forall k: nat | InForce(s, k, t) ensures s[0].interval.start <= t < End(s) {
      StartsOrdered(s, 0, k);
      if k < |s| - 1 {
        StartsOrdered(s, k + 1, |s| - 1);
      }
    }
  }

  lemma {:induction false} StartsOrdered(s: seq<PMaxEntry>, i: nat, j: nat)
    requires WellFormed(s) && i <= j < |s|
    ensures s[i].interval.start <= s[j].interval.start
    decreases j - i
  {
    if i < j {
      StartsOrdered(s, i + 1, j);
    }
  }

  /** Some entry is in force at instant t. */
  ghost predicate Covers(s: seq<PMaxEntry>, t: nat) {
    exists k: nat :: InForce(s, k, t)
  }

  /**
   Any well-formed schedule passes the check exactly when, counted from its first
   start, it covers a whole day if no departure is given, and nothing from the
   departure on if one is. One that falls short of the departure passes too.
   */
  lemma AcceptedExactlyUpToDeparture(s: seq<PMaxEntry>, departure: nat)
    requires WellFormed(s)
    ensures var start := s[0].interval.start;
            IsAccepted(s, departure) <==>
            if departure == 0 then forall t: nat | start <= t < start + DAY :: Covers(s, t)
            else forall t: nat | start + departure <= t :: !Covers(s, t)
  {
    var start := s[0].interval.start;
    StartsOrdered(s, 0, |s| - 1);
    forall t: nat ensures Covers(s, t) <==> start <= t < End(s) {
      InForceExactly(s, t);
    }
    if departure == 0 && !IsAccepted(s, departure) {
      assert !Covers(s, End(s));
    }
    if departure > 0 && !IsAccepted(s, departure) {
      assert Covers(s, End(s) - 1);
    }
  }

  /** The documented intention is the opposite: two days are turned down for one, and one day passes for two. */
  lemma CheckIsTurnedAround()
    ensures WellFormed(Schedule(2 * DAY)) && End(Schedule(2 * DAY)) == 2 * DAY && !IsAccepted(Schedule(2 * DAY), DAY)
    ensures WellFormed(Schedule(DAY)) && End(Schedule(DAY)) == DAY && IsAccepted(Schedule(DAY), 2 * DAY)
  {
    ScheduleIsWellFormed(2 * DAY);
    ScheduleIsWellFormed(DAY);
  }

  lemma GeneratedScheduleIsAccepted(departure: nat)
    ensures WellFormed(Schedule(Horizon(departure))) && IsAccepted(Schedule(Horizon(departure)), departure)
  {
    ScheduleIsWellFormed(Horizon(departure));
  }
}
