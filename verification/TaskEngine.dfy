/**
 The CAN task engine: one thread per registered task, a stop event for each
 thread, and stop and resume commands whose loops interleave freely with what
 the threads do.
 */
module TaskEngine {
  import opened Common

  /** What a task was registered with. */
  datatype Registration = Registration(name: string, function_: nat, period: real)

  /** Leaving: the stop event was seen, and the thread has not finished yet. */
  datatype Pc = Checking | Calling | Leaving | Dead

  /** raised: an exception of its function has ended the thread. */
  datatype Thread =
    Thread(registration: Registration, slot: nat, stop: bool, pc: Pc, calls: nat, raised: bool)
  {
    predicate Alive() {
      !pc.Dead?
    }
  }

  datatype Command = Stop | Resume

  /** Where the loop of the current command is; cleared: the event is cleared, liveness not yet looked at. */
  datatype Control = Idle | Stopping(i: nat) | Resuming(i: nat, cleared: bool)

  /** Threads are named by their position in threads; tasks holds the current thread of each slot. */
  datatype Engine = Engine(
    threads: seq<Thread>,
    tasks: seq<nat>,
    stopped: seq<nat>,
    control: Control,
    log: seq<Command>)

  /** A call that is under way when its thread takes a step returns, or raises an exception. */
  datatype Step = Issue(command: Command) | Advance | ThreadStep(t: nat, raises: bool)

  function Fresh(r: Registration, slot: nat): Thread {
    Thread(r, slot, false, Checking, 0, false)
  }

  /** All tasks registered and started. */
  function Started(regs: seq<Registration>): Engine {
    Engine(seq(|regs|, k requires 0 <= k < |regs| => Fresh(regs[k], k)), seq(|regs|, k => k), [], Idle, [])
  }

  function Find(tasks: seq<nat>, t: nat): (k: Option<nat>)
    ensures k.Some? ==> k.value < |tasks| && tasks[k.value] == t
    ensures k.None? ==> t !in tasks
  {
    if tasks == [] then None
    else if tasks[0] == t then Some(0)
    else
      var k := Find(tasks[1..], t);
      if k.None? then None else Some(k.value + 1)
  }

  /** One look at a task in stop_all_task: an event that is already set is left alone. */
  function StopOne(e: Engine, t: nat): Engine {
    if t >= |e.threads| || e.threads[t].stop then e
    else e.(threads := e.threads[t := e.threads[t].(stop := true)], stopped := e.stopped + [t])
  }

  function ClearOne(e: Engine, t: nat): Engine {
    if t >= |e.threads| then e else e.(threads := e.threads[t := e.threads[t].(stop := false)])
  }

  /** A thread that has finished is replaced in its slot by a new one, which is started. */
  function ReviveOne(e: Engine, t: nat): Engine {
    if t >= |e.threads| || e.threads[t].Alive() then e
    else
      match Find(e.tasks, t)
      case None => e
      case Some(k) =>
        e.(threads := e.threads + [Fresh(e.threads[t].registration, k)], tasks := e.tasks[k := |e.threads|])
  }

  function Advanced(e: Engine): Engine {
    match e.control
    case Idle => e
    case Stopping(i) =>
      if i < |e.tasks| then StopOne(e, e.tasks[i]).(control := Stopping(i + 1)) else e.(control := Idle)
    case Resuming(i, cleared) =>
      if i >= |e.stopped| then e.(stopped := [], control := Idle)
      else if !cleared then ClearOne(e, e.stopped[i]).(control := Resuming(i, true))
      else ReviveOne(e, e.stopped[i]).(control := Resuming(i + 1, false))
  }

  function Issued(e: Engine, c: Command): Engine {
    if !e.control.Idle? then e
    else if c.Stop? then e.(stopped := [], control := Stopping(0), log := e.log + [c])
    else e.(control := Resuming(0, false), log := e.log + [c])
  }

  function ThreadRuns(th: Thread, raises: bool): Thread {
    match th.pc
    case Checking => th.(pc := if th.stop then Leaving else Calling)
    case Calling => if raises then th.(pc := Dead, raised := true) else th.(pc := Checking, calls := th.calls + 1)
    case Leaving => th.(pc := Dead)
    case Dead => th
  }

  function Next(e: Engine, s: Step): Engine {
    match s
    case Issue(c) => Issued(e, c)
    case Advance => Advanced(e)
    case ThreadStep(t, raises) =>
      if t < |e.threads| then e.(threads := e.threads[t := ThreadRuns(e.threads[t], raises)]) else e
  }

  function Run(e: Engine, steps: seq<Step>): Engine {
    if steps == [] then e else Next(Run(e, steps[..|steps| - 1]), steps[|steps| - 1])
  }

  // ---------------------------------------------------------------------
  // What every interleaving keeps
  // ---------------------------------------------------------------------

  /** t is the thread its slot holds. */
  predicate Current(e: Engine, t: nat) {
    t < |e.threads| && e.threads[t].slot < |e.tasks| && e.tasks[e.threads[t].slot] == t
  }

  /** Every slot holds a thread with the registration it was made from; any other thread has finished. */
  predicate Slots(e: Engine, regs: seq<Registration>) {
    && |e.tasks| == |regs|
    && (forall k | 0 <= k < |e.tasks| :: e.tasks[k] < |e.threads| && e.threads[e.tasks[k]].slot == k)
    && (forall t | 0 <= t < |e.threads| ::
          && e.threads[t].slot < |regs|
          && e.threads[t].registration == regs[e.threads[t].slot]
          && (e.threads[t].Alive() ==> Current(e, t) && !e.threads[t].raised))
  }

  /** The first position of the stopped list whose thread is still to be revived. */
  function FirstOpen(e: Engine): nat {
    if e.control.Resuming? then e.control.i else 0
  }

  /** The first position whose event has not been cleared again. */
  function FirstSet(e: Engine): nat {
    if e.control.Resuming? && e.control.cleared then e.control.i + 1 else FirstOpen(e)
  }

  predicate StoppedList(e: Engine) {
    && (forall i, j | 0 <= i < j < |e.stopped| :: e.stopped[i] != e.stopped[j])
    && (forall j | 0 <= j < |e.stopped| :: e.stopped[j] < |e.threads|)
    && (forall j | FirstOpen(e) <= j < |e.stopped| :: Current(e, e.stopped[j]))
    && (forall j | FirstSet(e) <= j < |e.stopped| :: e.threads[e.stopped[j]].stop)
    && (forall j | 0 <= j < FirstSet(e) && j < |e.stopped| :: !e.threads[e.stopped[j]].stop)
    && (e.control.Stopping? ==> forall j | 0 <= j < |e.stopped| :: e.threads[e.stopped[j]].slot < e.control.i)
    && (e.control.Resuming? && e.control.cleared ==> e.control.i < |e.stopped|)
  }

  predicate Inv(e: Engine, regs: seq<Registration>) {
    Slots(e, regs) && StoppedList(e)
  }

  lemma ThreadStepKeepsSlots(e: Engine, regs: seq<Registration>, t: nat, raises: bool)
    requires Slots(e, regs)
    ensures Slots(Next(e, ThreadStep(t, raises)), regs)
  {}

  lemma ThreadStepKeepsList(e: Engine, regs: seq<Registration>, t: nat, raises: bool)
    requires Inv(e, regs)
    ensures StoppedList(Next(e, ThreadStep(t, raises)))
  {
    var next := Next(e, ThreadStep(t, raises));
    assert forall u | 0 <= u < |e.threads| ::
        next.threads[u].stop == e.threads[u].stop && next.threads[u].slot == e.threads[u].slot;
    assert forall u: nat :: Current(next, u) == Current(e, u);
  }

  lemma IssueKeepsInv(e: Engine, regs: seq<Registration>, c: Command)
    requires Inv(e, regs)
    ensures Inv(Issued(e, c), regs)
  {
    assert forall u: nat :: Current(Issued(e, c), u) == Current(e, u);
  }

  /** The end of either loop. */
  lemma EndKeepsInv(e: Engine, regs: seq<Registration>)
    requires Inv(e, regs)
    requires || (e.control.Stopping? && e.control.i >= |e.tasks|)
             || (e.control.Resuming? && e.control.i >= |e.stopped|)
    ensures Inv(Advanced(e), regs)
  {
    assert forall u: nat :: Current(Advanced(e), u) == Current(e, u);
  }

  lemma StopOneKeepsSlots(e: Engine, regs: seq<Registration>, t: nat, control: Control)
    requires Slots(e, regs)
    ensures Slots(StopOne(e, t).(control := control), regs)
  {}

  lemma StopOneKeepsList(e: Engine, regs: seq<Registration>)
    requires Inv(e, regs) && e.control.Stopping? && e.control.i < |e.tasks|
    ensures StoppedList(Advanced(e))
  {
    var t, next := e.tasks[e.control.i], Advanced(e);
    StopOneKeepsSlots(e, regs, t, Stopping(e.control.i + 1));
    assert forall j | 0 <= j < |e.stopped| :: e.threads[e.stopped[j]].slot < e.control.i;
    if e.threads[t].stop {
      assert next == e.(control := Stopping(e.control.i + 1));
    } else {
      assert next.stopped == e.stopped + [t];
      assert next.threads == e.threads[t := e.threads[t].(stop := true)];
    }
    forall j | 0 <= j < |next.stopped|
      ensures next.stopped[j] < |next.threads| && Current(next, next.stopped[j])
      ensures next.threads[next.stopped[j]].stop && next.threads[next.stopped[j]].slot < e.control.i + 1
    {
      assert next.stopped[j] == if j < |e.stopped| then e.stopped[j] else t;
      assert j < |e.stopped| ==> Current(e, e.stopped[j]);
    }
  }

  lemma ClearOneKeepsInv(e: Engine, regs: seq<Registration>)
    requires Inv(e, regs) && e.control.Resuming? && e.control.i < |e.stopped| && !e.control.cleared
    ensures Inv(Advanced(e), regs)
  {}

  /** The index of a stopped thread among the tasks is always found, and it is the thread's own slot. */
  lemma IndexNeverFails(e: Engine, regs: seq<Registration>)
    requires Inv(e, regs) && e.control.Resuming? && e.control.i < |e.stopped|
    ensures Find(e.tasks, e.stopped[e.control.i]) == Some(e.threads[e.stopped[e.control.i]].slot)
  {
    var t := e.stopped[e.control.i];
    assert Current(e, t);
    assert t in e.tasks;
  }

  lemma ReviveOneKeepsSlots(e: Engine, regs: seq<Registration>, t: nat, control: Control)
    requires Slots(e, regs)
    ensures Slots(ReviveOne(e, t).(control := control), regs)
  {
    var k := Find(e.tasks, t);
    if k.Some? {
      assert e.threads[e.tasks[k.value]].slot == k.value;
    }
  }

  lemma ReviveOneKeepsList(e: Engine, regs: seq<Registration>)
    requires Inv(e, regs) && e.control.Resuming? && e.control.cleared
    ensures StoppedList(Advanced(e))
  {
    IndexNeverFails(e, regs);
  }

  lemma NextKeepsInv(e: Engine, regs: seq<Registration>, s: Step)
    requires Inv(e, regs)
    ensures Inv(Next(e, s), regs)
  {
    match s
    case Issue(c) => IssueKeepsInv(e, regs, c);
    case ThreadStep(t, raises) =>
      ThreadStepKeepsSlots(e, regs, t, raises);
      ThreadStepKeepsList(e, regs, t, raises);
    case Advance => AdvanceKeepsInv(e, regs);
  }

  lemma StopKeepsInv(e: Engine, regs: seq<Registration>)
    requires Inv(e, regs) && e.control.Stopping? && e.control.i < |e.tasks|
    ensures Inv(Advanced(e), regs)
  {
    StopOneKeepsSlots(e, regs, e.tasks[e.control.i], Stopping(e.control.i + 1));
    StopOneKeepsList(e, regs);
  }

  lemma ReviveKeepsInv(e: Engine, regs: seq<Registration>)
    requires Inv(e, regs) && e.control.Resuming? && e.control.cleared
    ensures Inv(Advanced(e), regs)
  {
    ReviveOneKeepsSlots(e, regs, e.stopped[e.control.i], Resuming(e.control.i + 1, false));
    ReviveOneKeepsList(e, regs);
  }

  lemma AdvanceKeepsInv(e: Engine, regs: seq<Registration>)
    requires Inv(e, regs)
    ensures Inv(Advanced(e), regs)
  {
    match e.control
    case Idle =>
    case Stopping(i) =>
      if i < |e.tasks| { StopKeepsInv(e, regs); } else { EndKeepsInv(e, regs); }
    case Resuming(i, cleared) =>
      if i >= |e.stopped| {
        EndKeepsInv(e, regs);
      } else if cleared {
        ReviveKeepsInv(e, regs);
      } else {
        ClearOneKeepsInv(e, regs);
      }
  }

  lemma {:induction false} RunKeepsInv(regs: seq<Registration>, steps: seq<Step>)
    ensures Inv(Run(Started(regs), steps), regs)
  {
    if steps != [] {
      var init := steps[..|steps| - 1];
      RunKeepsInv(regs, init);
      NextKeepsInv(Run(Started(regs), init), regs, steps[|steps| - 1]);
    }
  }

  /**
   In every interleaving the slots keep number, names, functions and periods,
   each slot has at most one live thread and that is the one it holds, and the
   stopped list holds no thread twice and, between commands, only tasks.
   */
  lemma {:induction false} SlotsAreKept(regs: seq<Registration>, steps: seq<Step>)
    ensures var e := Run(Started(regs), steps);
            && |e.tasks| == |regs|
            && (forall k | 0 <= k < |regs| :: e.tasks[k] < |e.threads| && e.threads[e.tasks[k]].registration == regs[k])
            && (forall t, u | 0 <= t < |e.threads| && 0 <= u < |e.threads|
                  && e.threads[t].Alive() && e.threads[u].Alive() && e.threads[t].slot == e.threads[u].slot ::
                    t == u && e.threads[t].slot < |e.tasks| && e.tasks[e.threads[t].slot] == t)
            && (forall i, j | 0 <= i < j < |e.stopped| :: e.stopped[i] != e.stopped[j])
            && (!e.control.Resuming? ==> forall t | t in e.stopped :: t in e.tasks)
  {
    var e := Run(Started(regs), steps);
    RunKeepsInv(regs, steps);
    if !e.control.Resuming? {
      forall t | t in e.stopped ensures t in e.tasks {
        var j :| 0 <= j < |e.stopped| && e.stopped[j] == t;
        assert Current(e, e.stopped[j]);
      }
    }
  }

  // ---------------------------------------------------------------------
  // What the commands amount to
  // ---------------------------------------------------------------------

  /** Stopped: the next resume will clear the event. Lost: no command will ever clear it. */
  datatype Status = Running | Stopped | Lost

  function StatusOf(e: Engine, k: nat): Status
    requires k < |e.tasks|
  {
    var t := e.tasks[k];
    if t >= |e.threads| || !e.threads[t].stop then Running
    else if t in e.stopped then Stopped
    else Lost
  }

  /** The effect of one command on a slot, without threads and loops. */
  function After(s: Status, c: Command): Status {
    match c
    case Stop => if s.Running? then Stopped else Lost
    case Resume => if s.Stopped? then Running else s
  }

  function Commanded(log: seq<Command>): Status {
    if log == [] then Running else After(Commanded(log[..|log| - 1]), log[|log| - 1])
  }

  /** The status a slot must have while a command is under way. */
  ghost predicate Follows(e: Engine, k: nat)
    requires k < |e.tasks|
  {
    match e.control
    case Idle => StatusOf(e, k) == Commanded(e.log)
    case Stopping(i) =>
      && !Commanded(e.log).Running?
      && if k < i then StatusOf(e, k) == Commanded(e.log)
      else StatusOf(e, k) == if Commanded(e.log).Stopped? then Running else Lost
    case Resuming(i, cleared) =>
      if InFrom(e, k) then StatusOf(e, k) == Stopped && Commanded(e.log) == Running
      else StatusOf(e, k) == Commanded(e.log) && (Commanded(e.log).Running? || Commanded(e.log).Lost?)
  }

  /** The thread of slot k is still to be cleared by the resume under way. */
  ghost predicate InFrom(e: Engine, k: nat)
    requires k < |e.tasks|
  {
    exists j :: FirstSet(e) <= j < |e.stopped| && e.stopped[j] == e.tasks[k]
  }

  ghost predicate AllFollow(e: Engine) {
    forall k | 0 <= k < |e.tasks| :: Follows(e, k)
  }

  lemma {:induction false} LogGrows(log: seq<Command>, c: Command)
    ensures Commanded(log + [c]) == After(Commanded(log), c)
  {
    assert (log + [c])[..|log|] == log;
  }

  lemma StopIssuedFollows(e: Engine, regs: seq<Registration>)
    requires Inv(e, regs) && AllFollow(e) && e.control.Idle?
    ensures AllFollow(Issued(e, Stop))
  {
    LogGrows(e.log, Stop);
    forall k | 0 <= k < |e.tasks| ensures Follows(Issued(e, Stop), k) {
      assert Follows(e, k);
    }
  }

  lemma ResumeIssuedFollows(e: Engine, regs: seq<Registration>)
    requires Inv(e, regs) && AllFollow(e) && e.control.Idle?
    ensures AllFollow(Issued(e, Resume))
  {
    LogGrows(e.log, Resume);
    var next := Issued(e, Resume);
    forall k | 0 <= k < |e.tasks| ensures Follows(next, k) {
      assert Follows(e, k);
      assert StatusOf(next, k) == StatusOf(e, k);
      if e.tasks[k] in e.stopped {
        var j :| 0 <= j < |e.stopped| && e.stopped[j] == e.tasks[k];
        assert InFrom(next, k);
        assert e.threads[e.stopped[j]].stop;
      } else {
        assert !InFrom(next, k);
      }
    }
  }

  lemma StopFollows(e: Engine, regs: seq<Registration>)
    requires Inv(e, regs) && AllFollow(e) && e.control.Stopping?
    ensures AllFollow(Advanced(e))
  {
    var next := Advanced(e);
    forall k | 0 <= k < |e.tasks| ensures Follows(next, k) {
      assert Follows(e, k);
      if e.control.i < |e.tasks| && e.tasks[k] == e.tasks[e.control.i] {
        assert e.threads[e.tasks[k]].slot == k;
      }
    }
  }

  lemma ClearFollows(e: Engine, regs: seq<Registration>)
    requires Inv(e, regs) && AllFollow(e) && e.control.Resuming? && !e.control.cleared && e.control.i < |e.stopped|
    ensures AllFollow(Advanced(e))
  {
    var next := Advanced(e);
    var t := e.stopped[e.control.i];
    forall k | 0 <= k < |e.tasks| ensures Follows(next, k) {
      assert Follows(e, k);
      if e.tasks[k] == t {
        assert InFrom(e, k) && !InFrom(next, k);
      } else if InFrom(e, k) {
        var j :| FirstSet(e) <= j < |e.stopped| && e.stopped[j] == e.tasks[k];
        assert InFrom(next, k);
      }
    }
  }

  lemma ReviveFollows(e: Engine, regs: seq<Registration>)
    requires Inv(e, regs) && AllFollow(e) && e.control.Resuming? && e.control.cleared
    ensures AllFollow(Advanced(e))
  {
    var next := Advanced(e);
    IndexNeverFails(e, regs);
    var t := e.stopped[e.control.i];
    forall k | 0 <= k < |e.tasks| ensures Follows(next, k) {
      assert Follows(e, k);
      if e.tasks[k] == t {
        assert e.threads[t].slot == k;
        assert !InFrom(e, k) && !e.threads[t].stop;
        assert !InFrom(next, k);
      } else if InFrom(e, k) {
        var j :| FirstSet(e) <= j < |e.stopped| && e.stopped[j] == e.tasks[k];
        assert InFrom(next, k);
      }
    }
  }

  lemma ResumeEndFollows(e: Engine, regs: seq<Registration>)
    requires Inv(e, regs) && AllFollow(e) && e.control.Resuming? && e.control.i >= |e.stopped|
    ensures AllFollow(Advanced(e))
  {
    forall k | 0 <= k < |e.tasks| ensures Follows(Advanced(e), k) {
      assert Follows(e, k);
    }
  }

  lemma ThreadFollows(e: Engine, regs: seq<Registration>, t: nat, raises: bool)
    requires Inv(e, regs) && AllFollow(e)
    ensures AllFollow(Next(e, ThreadStep(t, raises)))
  {
    var next := Next(e, ThreadStep(t, raises));
    forall k | 0 <= k < |e.tasks| ensures Follows(next, k) {
      assert Follows(e, k);
      assert StatusOf(next, k) == StatusOf(e, k);
      if e.control.Resuming? {
        assert InFrom(next, k) <==> InFrom(e, k);
      }
    }
  }

  lemma NextFollows(e: Engine, regs: seq<Registration>, s: Step)
    requires Inv(e, regs) && AllFollow(e)
    ensures AllFollow(Next(e, s))
  {
    match s
    case Issue(c) =>
      if e.control.Idle? {
        if c.Stop? { StopIssuedFollows(e, regs); } else { ResumeIssuedFollows(e, regs); }
      }
    case ThreadStep(t, raises) => ThreadFollows(e, regs, t, raises);
    case Advance =>
      match e.control
      case Idle =>
      case Stopping(i) => StopFollows(e, regs);
      case Resuming(i, cleared) =>
        if i >= |e.stopped| { ResumeEndFollows(e, regs); }
        else if cleared { ReviveFollows(e, regs); }
        else { ClearFollows(e, regs); }
  }

  lemma {:induction false} RunFollows(regs: seq<Registration>, steps: seq<Step>)
    ensures AllFollow(Run(Started(regs), steps))
  {
    if steps != [] {
      var init := steps[..|steps| - 1];
      RunFollows(regs, init);
      RunKeepsInv(regs, init);
      NextFollows(Run(Started(regs), init), regs, steps[|steps| - 1]);
    }
  }

  /** Stops i and j have no resume between them. */
  predicate StopsAt(log: seq<Command>, i: nat, j: nat) {
    i < j < |log| && forall m | i <= m <= j :: log[m].Stop?
  }

  ghost predicate StoppedTwice(log: seq<Command>) {
    exists i: nat, j: nat :: StopsAt(log, i, j)
  }

  lemma StoppedTwiceGrows(log: seq<Command>, c: Command)
    ensures StoppedTwice(log + [c]) <==>
            StoppedTwice(log) || (c.Stop? && log != [] && log[|log| - 1].Stop?)
  {
    var next := log + [c];
    assert forall m | 0 <= m < |log| :: next[m] == log[m];
    forall i: nat, j: nat | j < |log| ensures StopsAt(next, i, j) <==> StopsAt(log, i, j) {
      assert forall m | i <= m <= j :: next[m] == log[m];
    }
    forall i: nat | StopsAt(next, i, |log|) ensures c.Stop? && log != [] && log[|log| - 1].Stop? {
      assert next[|log|].Stop? && next[|log| - 1].Stop?;
    }
    if c.Stop? && log != [] && log[|log| - 1].Stop? {
      assert StopsAt(next, |log| - 1, |log|);
    }
  }

  lemma {:induction false} LostExactlyWhenStoppedTwice(log: seq<Command>)
    ensures Commanded(log).Lost? <==> StoppedTwice(log)
    ensures !StoppedTwice(log) ==> (Commanded(log).Stopped? <==> log != [] && log[|log| - 1].Stop?)
  {
    if log != [] {
      var init := log[..|log| - 1];
      LostExactlyWhenStoppedTwice(init);
      StoppedTwiceGrows(init, log[|log| - 1]);
      assert log == init + [log[|log| - 1]];
    }
  }

  /**
   Between commands, and however the threads interleaved with them, the event of
   a slot is cleared if the log is empty or ends in a resume, pending if its last
   stop can still be undone, and set for good exactly when two stops were issued
   with no resume in between.
   */
  lemma {:induction false} StatusFollowsCommands(regs: seq<Registration>, steps: seq<Step>, k: nat)
    requires k < |regs|
    ensures var e := Run(Started(regs), steps);
            && k < |e.tasks|
            && (e.control.Idle? ==> StatusOf(e, k) == Commanded(e.log))
            && (e.control.Idle? ==> (StatusOf(e, k) == Lost <==> StoppedTwice(e.log)))
  {
    var e := Run(Started(regs), steps);
    RunKeepsInv(regs, steps);
    RunFollows(regs, steps);
    assert Follows(e, k);
    LostExactlyWhenStoppedTwice(e.log);
  }

  // ---------------------------------------------------------------------
  // Lost for good
  // ---------------------------------------------------------------------

  /** Calls the thread has begun. */
  function Begun(th: Thread): nat {
    th.calls + if th.pc.Calling? || th.raised then 1 else 0
  }

  lemma LostStep(e: Engine, regs: seq<Registration>, k: nat, s: Step)
    requires Inv(e, regs) && k < |e.tasks| && StatusOf(e, k) == Lost
    ensures var next := Next(e, s);
            && k < |next.tasks| && next.tasks[k] == e.tasks[k] && StatusOf(next, k) == Lost
            && e.tasks[k] < |next.threads|
            && Begun(next.threads[e.tasks[k]]) == Begun(e.threads[e.tasks[k]])
  {
    if s.Advance? && e.control.Resuming? && e.control.i < |e.stopped| {
      IndexNeverFails(e, regs);
      assert e.tasks[k] != e.stopped[e.control.i];
    }
    if s.Advance? && e.control.Stopping? && e.control.i < |e.tasks| && e.tasks[e.control.i] == e.tasks[k] {
      assert StopOne(e, e.tasks[k]) == e;
    }
  }

  /** A lost slot keeps its thread and its set event in every continuation, and begins no call any more. */
  lemma {:induction false} LostForGood(e: Engine, regs: seq<Registration>, k: nat, steps: seq<Step>)
    requires Inv(e, regs) && k < |e.tasks| && StatusOf(e, k) == Lost
    ensures var later := Run(e, steps);
            && Inv(later, regs)
            && k < |later.tasks| && later.tasks[k] == e.tasks[k] && StatusOf(later, k) == Lost
            && Begun(later.threads[e.tasks[k]]) == Begun(e.threads[e.tasks[k]])
  {
    if steps != [] {
      var init := steps[..|steps| - 1];
      LostForGood(e, regs, k, init);
      NextKeepsInv(Run(e, init), regs, steps[|steps| - 1]);
      LostStep(Run(e, init), regs, k, steps[|steps| - 1]);
    }
  }

  // ---------------------------------------------------------------------
  // When resuming misses a thread
  // ---------------------------------------------------------------------

  /** The thread will look for more work: it has not seen its event set. */
  predicate GoesOn(th: Thread) {
    th.pc.Checking? || th.pc.Calling?
  }

  /** No command under way can touch slot k: its event is clear and it is in no list of stopped threads. */
  predicate Untouched(e: Engine, k: nat) {
    && k < |e.tasks| && e.tasks[k] < |e.threads|
    && !e.control.Stopping? && !e.threads[e.tasks[k]].stop
    && (e.control.Resuming? ==> e.tasks[k] !in e.stopped)
  }

  /** A thread goes on exactly if it did before and has not raised since; one that did not begins no further call. */
  predicate Continues(was: Thread, th: Thread) {
    && (was.raised ==> th.raised)
    && (GoesOn(th) <==> GoesOn(was) && !th.raised)
    && (!GoesOn(was) ==> Begun(th) == Begun(was))
  }

  lemma ContinuesOn(a: Thread, b: Thread, c: Thread)
    requires Continues(a, b) && Continues(b, c)
    ensures Continues(a, c)
  {}

  lemma UntouchedStep(e: Engine, regs: seq<Registration>, k: nat, s: Step)
    requires Inv(e, regs) && Untouched(e, k) && s != Issue(Stop)
    ensures var next := Next(e, s);
            && Untouched(next, k) && next.tasks[k] == e.tasks[k]
            && Continues(e.threads[e.tasks[k]], next.threads[e.tasks[k]])
  {
    if s.Issue? && e.control.Idle? {
      assert e.tasks[k] !in e.stopped by {
        assert forall j | 0 <= j < |e.stopped| :: e.threads[e.stopped[j]].stop;
      }
    }
    if s.Advance? && e.control.Resuming? && e.control.i < |e.stopped| {
      IndexNeverFails(e, regs);
    }
  }

  /**
   Between commands let the event of a slot be clear. Until the next stop is issued,
   whatever threads and resumes do, the slot keeps its thread, and that goes on
   calling if and only if it had not seen its event set and no call of it has raised
   an exception. A thread that had seen its event set begins no further call.
   */
  lemma {:induction false} GoesOnExactlyUnlessLeaving(e: Engine, regs: seq<Registration>, k: nat, steps: seq<Step>)
    requires Inv(e, regs) && e.control.Idle? && k < |e.tasks| && StatusOf(e, k) == Running
    requires Issue(Stop) !in steps
    ensures var later := Run(e, steps);
            && Inv(later, regs) && Untouched(later, k) && later.tasks[k] == e.tasks[k]
            && Continues(e.threads[e.tasks[k]], later.threads[e.tasks[k]])
  {
    if steps != [] {
      var init, s := steps[..|steps| - 1], steps[|steps| - 1];
      var before := Run(e, init);
      assert s in steps;
      GoesOnExactlyUnlessLeaving(e, regs, k, init);
      NextKeepsInv(before, regs, s);
      UntouchedStep(before, regs, k, s);
      ContinuesOn(e.threads[e.tasks[k]], before.threads[e.tasks[k]], Next(before, s).threads[e.tasks[k]]);
    }
  }

  /** A slot with a thread that is not t0 and goes on, unless it has raised an exception. */
  predicate Replaced(e: Engine, k: nat, t0: nat) {
    && k < |e.tasks| && e.tasks[k] < |e.threads| && e.tasks[k] != t0
    && !e.threads[e.tasks[k]].stop && (GoesOn(e.threads[e.tasks[k]]) <==> !e.threads[e.tasks[k]].raised)
  }

  /** The finished thread t0 of slot k on its way through a stop and a resume issued after `log`. */
  predicate Reviving(e: Engine, k: nat, t0: nat, log: seq<Command>) {
    && k < |e.tasks| && t0 < |e.threads| && e.threads[t0].pc.Dead? && e.threads[t0].slot == k
    && (e.log == log ==> e.control.Idle? && e.tasks[k] == t0 && !e.threads[t0].stop)
    && (e.log == log + [Stop] ==>
          && e.tasks[k] == t0 && !e.control.Resuming?
          && (e.control.Stopping? && k >= e.control.i ==> !e.threads[t0].stop && t0 !in e.stopped)
          && ((e.control.Stopping? && k >= e.control.i) || t0 in e.stopped))
    && (e.log == log + [Stop, Resume] ==>
          && !e.control.Stopping?
          && if e.control.Resuming? && Awaits(e, t0) then e.tasks[k] == t0
             else Replaced(e, k, t0) && e.tasks[k] !in e.stopped)
  }

  /** The resume under way has still to look at t. */
  predicate Awaits(e: Engine, t: nat) {
    exists j :: FirstOpen(e) <= j < |e.stopped| && e.stopped[j] == t
  }

  /** No command has been issued beyond the given stop and resume. */
  predicate Within(e: Engine, log: seq<Command>) {
    e.log == log || e.log == log + [Stop] || e.log == log + [Stop, Resume]
  }

  lemma RevivingThread(
      e: Engine, regs: seq<Registration>, k: nat, t0: nat, log: seq<Command>, t: nat, raises: bool)
    requires Inv(e, regs) && Reviving(e, k, t0, log) && Within(e, log)
    ensures Reviving(Next(e, ThreadStep(t, raises)), k, t0, log)
  {
    var next := Next(e, ThreadStep(t, raises));
    assert Awaits(next, t0) <==> Awaits(e, t0);
  }

  lemma RevivingIssue(e: Engine, regs: seq<Registration>, k: nat, t0: nat, log: seq<Command>, c: Command)
    requires Inv(e, regs) && Reviving(e, k, t0, log) && Within(e, log) && Within(Issued(e, c), log)
    ensures Reviving(Issued(e, c), k, t0, log)
  {
    var next := Issued(e, c);
    if e.control.Idle? {
      IssuedWithin(log, e.log, c);
      if e.log == log + [Stop] {
        var j :| 0 <= j < |e.stopped| && e.stopped[j] == t0;
        assert FirstOpen(next) <= j < |next.stopped| && next.stopped[j] == t0;
        assert Awaits(next, t0);
      }
    }
  }

  lemma IssuedWithin(log: seq<Command>, before: seq<Command>, c: Command)
    requires before == log || before == log + [Stop] || before == log + [Stop, Resume]
    requires var after := before + [c]; after == log || after == log + [Stop] || after == log + [Stop, Resume]
    ensures before == log ==> c.Stop?
    ensures before == log + [Stop] ==> c.Resume?
    ensures before != log + [Stop, Resume]
  {
    var after := before + [c];
    assert |after| == |before| + 1 && after[|before|] == c;
    assert before == log ==> after == log + [Stop];
    assert before == log + [Stop] ==> after == log + [Stop, Resume];
    assert before == log + [Stop, Resume] ==> |after| == |log| + 3;
  }

  lemma RevivingStop(e: Engine, regs: seq<Registration>, k: nat, t0: nat, log: seq<Command>)
    requires Inv(e, regs) && Reviving(e, k, t0, log) && e.log == log + [Stop]
    ensures Reviving(Advanced(e), k, t0, log)
  {
    assert log != log + [Stop] && log + [Stop] != log + [Stop, Resume];
    if e.control.Stopping? && e.control.i < |e.tasks| {
      assert e.threads[e.tasks[e.control.i]].slot == e.control.i;
    }
  }

  lemma RevivingResume(e: Engine, regs: seq<Registration>, k: nat, t0: nat, log: seq<Command>)
    requires Inv(e, regs) && Reviving(e, k, t0, log) && e.log == log + [Stop, Resume]
    ensures Reviving(Advanced(e), k, t0, log)
  {
    assert log != log + [Stop, Resume] && log + [Stop] != log + [Stop, Resume];
    var next := Advanced(e);
    if e.control.Resuming? && e.control.i < |e.stopped| {
      IndexNeverFails(e, regs);
      var t := e.stopped[e.control.i];
      if t == t0 {
        assert Awaits(e, t0);
        assert e.control.cleared ==> !Awaits(next, t0);
      } else {
        assert Awaits(next, t0) <==> Awaits(e, t0);
      }
    }
  }

  lemma RevivingStep(e: Engine, regs: seq<Registration>, k: nat, t0: nat, log: seq<Command>, s: Step)
    requires Inv(e, regs) && Reviving(e, k, t0, log) && Within(e, log) && Within(Next(e, s), log)
    ensures Reviving(Next(e, s), k, t0, log)
  {
    match s
    case ThreadStep(t, raises) => RevivingThread(e, regs, k, t0, log, t, raises);
    case Issue(c) => RevivingIssue(e, regs, k, t0, log, c);
    case Advance =>
      if e.log == log + [Stop] {
        RevivingStop(e, regs, k, t0, log);
      } else if e.log == log + [Stop, Resume] {
        RevivingResume(e, regs, k, t0, log);
      }
  }

  lemma LogOnlyGrows(e: Engine, s: Step)
    ensures e.log <= Next(e, s).log && |Next(e, s).log| <= |e.log| + 1
  {}

  lemma {:induction false} RevivingRun(e: Engine, regs: seq<Registration>, k: nat, steps: seq<Step>)
    requires Inv(e, regs) && e.control.Idle? && k < |e.tasks| && StatusOf(e, k) == Running
    requires e.threads[e.tasks[k]].pc.Dead? && Within(Run(e, steps), e.log)
    ensures Inv(Run(e, steps), regs) && Reviving(Run(e, steps), k, e.tasks[k], e.log)
  {
    if steps == [] {
      assert e.log != e.log + [Stop] && e.log != e.log + [Stop, Resume];
    } else {
      var init, s := steps[..|steps| - 1], steps[|steps| - 1];
      var before := Run(e, init);
      LogOnlyGrows(before, s);
      RunLogGrows(e, init);
      WithinBefore(e.log, before.log, Next(before, s).log);
      RevivingRun(e, regs, k, init);
      NextKeepsInv(before, regs, s);
      RevivingStep(before, regs, k, e.tasks[k], e.log, s);
    }
  }

  lemma {:induction false} RunLogGrows(e: Engine, steps: seq<Step>)
    ensures e.log <= Run(e, steps).log
  {
    if steps != [] {
      RunLogGrows(e, steps[..|steps| - 1]);
    }
  }

  lemma WithinBefore(log: seq<Command>, before: seq<Command>, after: seq<Command>)
    requires log <= before <= after && |after| <= |before| + 1
    requires after == log || after == log + [Stop] || after == log + [Stop, Resume]
    ensures before == log || before == log + [Stop] || before == log + [Stop, Resume]
  {
    assert before == after[..|before|];
    assert after == log + [Stop, Resume] ==> after[..|log| + 1] == log + [Stop];
  }

  /**
   A slot that a resume has missed is not lost, nor is one whose function has raised an
   exception: once its thread has finished, the next stop and the next resume, interleaved
   with threads in any way, give the slot a new thread that goes on unless it raises.
   */
  lemma {:induction false} MissedSlotRecovers(e: Engine, regs: seq<Registration>, k: nat, steps: seq<Step>)
    requires Inv(e, regs) && e.control.Idle? && k < |e.tasks| && StatusOf(e, k) == Running
    requires e.threads[e.tasks[k]].pc.Dead?
    requires Run(e, steps).log == e.log + [Stop, Resume] && Run(e, steps).control.Idle?
    ensures Replaced(Run(e, steps), k, e.tasks[k]) && StatusOf(Run(e, steps), k) == Running
  {
    RevivingRun(e, regs, k, steps);
  }

  lemma Then(e: Engine, steps: seq<Step>, s: Step) returns (more: seq<Step>)
    ensures Run(e, more) == Next(Run(e, steps), s)
  {
    more := steps + [s];
    assert more[..|steps|] == steps;
  }

  /** The race exists: a thread that has seen its event and not yet finished is taken for a live one. */
  lemma ResumeCanMissAThread(r: Registration) returns (steps: seq<Step>)
    ensures var e := Run(Started([r]), steps);
            && e.control.Idle? && |e.tasks| == 1 && e.tasks[0] == 0 && |e.threads| == 1
            && StatusOf(e, 0) == Running && !e.threads[0].Alive()
  {
    var e := Started([r]);
    assert e == Engine([Fresh(r, 0)], [0], [], Idle, []);
    steps := Then(e, [], Issue(Stop));
    steps := Then(e, steps, Advance);
    steps := Then(e, steps, ThreadStep(0, false));
    steps := Then(e, steps, Advance);
    assert Run(e, steps) == Engine([Thread(r, 0, true, Leaving, 0, false)], [0], [0], Idle, [Stop]);
    steps := Then(e, steps, Issue(Resume));
    steps := Then(e, steps, Advance);
    steps := Then(e, steps, Advance);
    steps := Then(e, steps, Advance);
    steps := Then(e, steps, ThreadStep(0, false));
  }

  // ---------------------------------------------------------------------
  // The object whose lists the source updates, with nothing interleaved
  // ---------------------------------------------------------------------

  function Advances(e: Engine, n: nat): Engine {
    if n == 0 then e else Advanced(Advances(e, n - 1))
  }

  class TaskEngine {
    var threads: seq<Thread>
    var tasks: seq<nat>
    var stoppedTasks: seq<nat>
    ghost var control: Control
    ghost var log: seq<Command>

    ghost function Model(): Engine
      reads this
    {
      Engine(threads, tasks, stoppedTasks, control, log)
    }

    /** Registers and starts the tasks. */
    constructor (regs: seq<Registration>)
      ensures Model() == Started(regs)
    {
      threads, tasks, stoppedTasks := [], [], [];
      control, log := Idle, [];
      new;
      for k := 0 to |regs|
        invariant |threads| == |tasks| == k && stoppedTasks == [] && control == Idle && log == []
        invariant forall j | 0 <= j < k :: threads[j] == Fresh(regs[j], j) && tasks[j] == j
      {
        threads := threads + [Fresh(regs[k], k)];
        tasks := tasks + [k];
      }
    }

    method StopTask(t: nat)
      requires t < |threads|
      modifies this`threads, this`stoppedTasks
      ensures Model() == StopOne(old(Model()), t)
      ensures |threads| == |old(threads)| && threads[t].stop
      ensures forall u | 0 <= u < |threads| && old(threads)[u].stop :: threads[u].stop
    {
      if threads[t].stop {
        return;
      }
      threads := threads[t := threads[t].(stop := true)];
      stoppedTasks := stoppedTasks + [t];
    }

    method StopAllTask()
      requires control.Idle? && forall k | 0 <= k < |tasks| :: tasks[k] < |threads|
      modifies this
      ensures Model() == Advances(Issued(old(Model()), Stop), |old(tasks)| + 1) && control.Idle?
      ensures tasks == old(tasks) && |threads| == |old(threads)|
      ensures forall k | 0 <= k < |tasks| :: threads[tasks[k]].stop
    {
      ghost var issued := Issued(Model(), Stop);
      stoppedTasks := [];
      control, log := Stopping(0), log + [Stop];
      for i := 0 to |tasks|
        invariant tasks == old(tasks) && |threads| == |old(threads)|
        invariant Model() == Advances(issued, i) && control == Stopping(i)
        invariant forall j | 0 <= j < i :: threads[tasks[j]].stop
      {
        StopTask(tasks[i]);
        control := Stopping(i + 1);
      }
      control := Idle;
    }

    method ClearTask(t: nat)
      requires t < |threads|
      modifies this`threads
      ensures Model() == ClearOne(old(Model()), t) && |threads| == |old(threads)|
    {
      threads := threads[t := threads[t].(stop := false)];
    }

    /** The part of the loop body after the event was cleared. */
    method ReviveTask(t: nat)
      requires t < |threads|
      modifies this`threads, this`tasks
      ensures Model() == ReviveOne(old(Model()), t)
      ensures |old(threads)| <= |threads|
    {
      if threads[t].Alive() {
        return;
      }
      var slot := Find(tasks, t);
      if slot.Some? {
        tasks := tasks[slot.value := |threads|];
        threads := threads + [Fresh(threads[t].registration, slot.value)];
      }
    }

    method ResumeAllTasks()
      requires control.Idle? && forall k | 0 <= k < |stoppedTasks| :: stoppedTasks[k] < |threads|
      modifies this
      ensures Model() == Advances(Issued(old(Model()), Resume), 2 * |old(stoppedTasks)| + 1) && control.Idle?
      ensures stoppedTasks == []
    {
      ghost var issued := Issued(Model(), Resume);
      control, log := Resuming(0, false), log + [Resume];
      for i := 0 to |stoppedTasks|
        invariant stoppedTasks == old(stoppedTasks) && |old(threads)| <= |threads|
        invariant Model() == Advances(issued, 2 * i) && control == Resuming(i, false)
      {
        var t := stoppedTasks[i];
        ClearTask(t);
        control := Resuming(i, true);
        assert Model() == Advances(issued, 2 * i + 1);
        ReviveTask(t);
        control := Resuming(i + 1, false);
        assert Model() == Advances(issued, 2 * i + 2);
      }
      stoppedTasks := [];
      control := Idle;
    }
  }
}
