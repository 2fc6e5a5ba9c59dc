/**
 * The main loop watches over the task that runs the broker. The two share a handle and a flag; they are modelled
 * as atomic steps that interleave in any order.
 */
module BrokerSupervisor {
  import opened Basics
  import opened Millis

  const SHORT_DELAY: nat := 1000
  const LONG_DELAY: nat := 60000

  /** Where a broker task is: inside the broker, past it, handle cleared, exit announced. */
  datatype TaskPhase = Inside | Returned | HandleCleared | Announced

  /** Where the loop is in its pass. */
  datatype LoopPoint =
    /** about to read the exit flag */
    | ReadFlag
    /** the flag was set, about to clear it */
    | ClearFlag
    /** the flag is cleared, about to record the exit */
    | Record
    /** about to decide whether to start a task */
    | Decide
    /** about to create a task */
    | Create
    /** a task exists, about to note the start */
    | NoteStart
    /** about to look at the publish client */
    | Observe

  /** A task by its number, or -1. */
  type Handle = h: int | -1 <= h witness -1

  datatype State = State(
    point: LoopPoint,
    started: bool,
    exited: bool,
    handle: Handle,
    restarts: nat,
    delay: nat,
    tasks: seq<TaskPhase>,
    now: nat,
    startAt: nat,
    quick: nat)

  /** After the setup at this time: nothing runs yet, and the delay counts from here. */
  function Initial(at: nat): State { State(ReadFlag, false, false, -1, 0, SHORT_DELAY, [], at, at, 0) }

  /** What the loop meets in one step: the time since the step before, whether a task can be created, the client. */
  datatype Chance = Chance(elapsed: nat, created: bool, connected: bool)

  /** The comparison the program makes, of readings of the clock. */
  predicate DelayOver(s: State) { Elapsed(Shown(s.now), Shown(s.startAt)) > s.delay }

  /** The true time goes on, then the section runs. */
  function LoopStep(s: State, c: Chance): State { Section(s.(now := s.now + c.elapsed), c) }

  function Section(s: State, c: Chance): State {
    match s.point
    case ReadFlag => s.(point := if s.exited then ClearFlag else Decide)
    case ClearFlag => s.(exited := false, point := Record)
    case Record =>
      s.(started := false, restarts := s.restarts + 1, delay := Min(s.delay * 2, LONG_DELAY), point := ReadFlag,
         startAt := s.now, quick := s.quick + 1)
    case Decide =>
      s.(point := if !s.started && DelayOver(s) then if s.handle == -1 then Create else NoteStart else Observe)
    case Create =>
      if c.created then s.(tasks := s.tasks + [Inside], handle := |s.tasks|, point := NoteStart)
      else s.(handle := -1, point := ReadFlag, startAt := s.now)
    case NoteStart => s.(started := true, point := Observe)
    case Observe =>
      if s.started && c.connected then s.(delay := SHORT_DELAY, quick := 0, point := ReadFlag) else s.(point := ReadFlag)
  }

  function TaskStep(s: State, i: nat): State
    requires i < |s.tasks|
  {
    match s.tasks[i]
    case Inside => s.(tasks := s.tasks[i := Returned])
    case Returned => s.(tasks := s.tasks[i := HandleCleared], handle := -1)
    case HandleCleared => s.(tasks := s.tasks[i := Announced], exited := true)
    case Announced => s
  }

  datatype Event = Loop(chance: Chance) | Task(number: nat)

  function Step(s: State, ev: Event): State {
    match ev
    case Loop(c) => LoopStep(s, c)
    case Task(i) => if i < |s.tasks| then TaskStep(s, i) else s
  }

  // ---- What every interleaving keeps ----

  /** An exit announced but not yet recorded. */
  predicate Pending(s: State) { s.exited || s.point == Record }

  function Live(tasks: seq<TaskPhase>): nat {
    if tasks == [] then 0
    else Live(tasks[..|tasks| - 1]) + (if tasks[|tasks| - 1] == Announced then 0 else 1)
  }

  /**
   * At most one task has not announced its exit, it is the newest, and none has while an exit is pending. A task
   * is created only when there is neither, so the handle is then clear.
   */
  predicate Inv(s: State) {
    var n := |s.tasks|;
    && (forall i :: 0 <= i < n - 1 ==> s.tasks[i] == Announced)
    && (n > 0 && s.tasks[n - 1] != Announced ==> !Pending(s))
    && !(s.exited && s.point == Record)
    && (s.point == ClearFlag ==> s.exited)
    && (s.point == Create || (s.point == Decide && !s.started) ==> Settled(s))
    && (!s.started ==> s.point == NoteStart || Settled(s))
    && (s.point == NoteStart || s.started ==> n > 0)
    && (s.point == NoteStart ==> !s.started)
    && (s.point == NoteStart || s.started ==> Pending(s) || s.tasks[n - 1] != Announced)
    && (s.handle != -1 ==> s.handle == n - 1 && (s.tasks[n - 1] == Inside || s.tasks[n - 1] == Returned))
    && s.restarts == n - (if Pending(s) || (n > 0 && s.tasks[n - 1] != Announced) then 1 else 0)
    && Timing(s)
  }

  /** The delay is that of the exits in a row, and a task is about to be created only after it. */
  predicate Timing(s: State) {
    && s.delay == DelayAfter(s.quick)
    && s.startAt <= s.now
    && (s.point == Create ==> s.now - s.startAt > s.delay)
  }

  /** Doubled for each exit in a row, from one second up to a minute. */
  function DelayAfter(quick: nat): nat { if quick < 6 then 1000 * Power(quick) else 60000 }

  function Power(k: nat): nat { if k == 0 then 1 else 2 * Power(k - 1) }

  lemma DelayDoubles(k: nat)
    ensures DelayAfter(0) == SHORT_DELAY && DelayAfter(k + 1) == Min(DelayAfter(k) * 2, LONG_DELAY)
    ensures 1000 <= DelayAfter(k) <= 60000
  {
    assert Power(0) == 1 && Power(1) == 2 && Power(2) == 4 && Power(3) == 8 && Power(4) == 16 && Power(5) == 32;
    if k < 6 { assert k == 0 || k == 1 || k == 2 || k == 3 || k == 4 || k == 5; }
  }

  /** No task is left and no exit waits to be recorded. */
  predicate Settled(s: State) {
    && (forall i :: 0 <= i < |s.tasks| ==> s.tasks[i] == Announced)
    && !Pending(s) && s.handle == -1
  }

  lemma LoopStepKeepsTiming(s: State, c: Chance)
    requires Timing(s)
    ensures Timing(LoopStep(s, c))
  {
    DelayDoubles(s.quick);
    ElapsedAtMost(s.now + c.elapsed, s.startAt);
  }

  lemma LoopStepKeeps(s: State, c: Chance)
    requires Inv(s)
    ensures Inv(LoopStep(s, c))
  {
    LoopStepKeepsTiming(s, c);
  }

  lemma TaskStepKeeps(s: State, i: nat)
    requires Inv(s) && i < |s.tasks|
    ensures Inv(TaskStep(s, i))
  {
  }

  lemma {:induction false} LiveIsZero(tasks: seq<TaskPhase>)
    requires forall i :: 0 <= i < |tasks| ==> tasks[i] == Announced
    ensures Live(tasks) == 0
  {
    if tasks != [] { LiveIsZero(tasks[..|tasks| - 1]); }
  }

  lemma LiveByInv(s: State)
    requires Inv(s)
    ensures Live(s.tasks) == if s.tasks != [] && s.tasks[|s.tasks| - 1] != Announced then 1 else 0
  {
    if s.tasks != [] { LiveIsZero(s.tasks[..|s.tasks| - 1]); }
  }

  function Run(at: nat, evs: seq<Event>): State {
    if evs == [] then Initial(at) else Step(Run(at, evs[..|evs| - 1]), evs[|evs| - 1])
  }

  lemma {:induction false} RunKeeps(at: nat, evs: seq<Event>)
    ensures Inv(Run(at, evs))
  {
    if evs != [] {
      RunKeeps(at, evs[..|evs| - 1]);
      var s := Run(at, evs[..|evs| - 1]);
      match evs[|evs| - 1]
      case Loop(c) => LoopStepKeeps(s, c);
      case Task(i) => if i < |s.tasks| { TaskStepKeeps(s, i); }
    }
  }

  /**
   * On every interleaving at most one task is between its creation and the announcement of its exit (so at most
   * one is inside the broker), every exit is recorded once or pending, and the delay stays in its range.
   */
  lemma OneBrokerEveryExitCounted(at: nat, evs: seq<Event>)
    ensures
      var s := Run(at, evs);
      && Live(s.tasks) <= 1
      && |s.tasks| == s.restarts + Live(s.tasks) + (if Pending(s) then 1 else 0)
      && (forall i, j :: 0 <= i < j < |s.tasks| ==> !(s.tasks[i] == Inside && s.tasks[j] == Inside))
      && s.delay == DelayAfter(s.quick) && 1000 <= s.delay <= 60000
  {
    RunKeeps(at, evs);
    DelayDoubles(Run(at, evs).quick);
    LiveByInv(Run(at, evs));
  }

  /**
   * A task that is created finds no other one and no unrecorded exit, and it comes later than the delay after the
   * last exit that was recorded, creation that failed, or the setup; after k exits in a row, that is min(2^k, 60) s.
   */
  lemma CreatedAlone(at: nat, evs: seq<Event>, c: Chance)
    requires Run(at, evs).point == Create
    ensures Settled(Run(at, evs)) && Live(Run(at, evs).tasks) == 0
    ensures Run(at, evs).now - Run(at, evs).startAt > DelayAfter(Run(at, evs).quick)
  {
    RunKeeps(at, evs);
    LiveIsZero(Run(at, evs).tasks);
  }

  /** Once the delay is over the next decision is to create a task, unless the clock has wrapped in between. */
  lemma CreatedInTime(at: nat, evs: seq<Event>, c: Chance)
    requires Run(at, evs).point == Decide && !Run(at, evs).started
    ensures
      var s, t := Run(at, evs), LoopStep(Run(at, evs), c);
      && (t.point == Create ==> t.now - s.startAt > DelayAfter(s.quick))
      && (DelayAfter(s.quick) < t.now - s.startAt < 0x1_0000_0000 ==> t.point == Create)
  {
    RunKeeps(at, evs);
    ElapsedAtMost(Run(at, evs).now + c.elapsed, Run(at, evs).startAt);
  }

  /** What counts as in a row: each recorded exit, until the publish client is connected again. */
  lemma QuickExitsCounted(s: State, ev: Event)
    requires Inv(s)
    ensures
      var t := Step(s, ev);
      && (t.restarts > s.restarts ==> t.quick == s.quick + 1 && t.startAt == t.now)
      && (t.restarts == s.restarts ==> t.quick == s.quick || (t.quick == 0 && ev.Loop? && ev.chance.connected && s.started))
      && (s.point == Observe && s.started && ev.Loop? && ev.chance.connected ==> t.quick == 0)
  {
  }

  // ---- Every exit is recorded ----

  /** Loop steps until a pending exit is recorded. */
  function Distance(s: State): nat {
    match s.point
    case Record => 1
    case ClearFlag => 2
    case ReadFlag => 3
    case Observe => 4
    case NoteStart => 5
    case Decide => 5
    case Create => 6
  }

  function LoopSteps(evs: seq<Event>): nat {
    if evs == [] then 0 else LoopSteps(evs[..|evs| - 1]) + (if evs[|evs| - 1].Loop? then 1 else 0)
  }

  function RunFrom(s: State, evs: seq<Event>): State {
    if evs == [] then s else Step(RunFrom(s, evs[..|evs| - 1]), evs[|evs| - 1])
  }

  lemma PendingComesCloser(s: State, ev: Event)
    requires Inv(s) && Pending(s)
    ensures
      var t := Step(s, ev);
      && Inv(t)
      && (if ev.Loop? && s.point == Record then t.restarts == s.restarts + 1 && !Pending(t)
          else t.restarts == s.restarts && Pending(t) && Distance(t) <= Distance(s) - (if ev.Loop? then 1 else 0))
  {
    match ev
    case Loop(c) => LoopStepKeeps(s, c);
    case Task(i) => if i < |s.tasks| { TaskStepKeeps(s, i); }
  }

  /** The exit is recorded after at most five steps of the loop, however the tasks interleave. */
  lemma {:induction false} ExitIsRecorded(s: State, evs: seq<Event>)
    requires Inv(s) && Pending(s)
    ensures Inv(RunFrom(s, evs)) && RunFrom(s, evs).restarts >= s.restarts
    ensures LoopSteps(evs) >= Distance(s) ==> RunFrom(s, evs).restarts > s.restarts
    ensures RunFrom(s, evs).restarts > s.restarts ||
            (Pending(RunFrom(s, evs)) && Distance(RunFrom(s, evs)) + LoopSteps(evs) <= Distance(s))
  {
    if evs != [] {
      var front, ev := evs[..|evs| - 1], evs[|evs| - 1];
      ExitIsRecorded(s, front);
      var t := RunFrom(s, front);
      if t.restarts == s.restarts {
        PendingComesCloser(t, ev);
      } else {
        match ev
        case Loop(c) => LoopStepKeeps(t, c);
        case Task(i) => if i < |t.tasks| { TaskStepKeeps(t, i); }
      }
    }
  }

  // ---- In place ----

  /** At most one task runs the broker, and every task before it has its exit recorded or about to be. */
  predicate OneBroker(s: State) {
    Live(s.tasks) <= 1 && |s.tasks| == s.restarts + Live(s.tasks) + (if Pending(s) then 1 else 0)
  }

  /** A pending exit is recorded, or its recording comes closer; a new task finds no other and no unrecorded exit. */
  predicate Advances(s: State, t: State) {
    && (Pending(s) ==> (!Pending(t) && t.restarts == s.restarts + 1) || Distance(t) == Distance(s) - 1)
    && (|t.tasks| > |s.tasks| ==> Live(s.tasks) == 0 && t.restarts == |s.tasks|)
  }

  lemma LoopStepAdvances(s: State, c: Chance)
    requires Inv(s)
    ensures Inv(LoopStep(s, c)) && OneBroker(LoopStep(s, c)) && Advances(s, LoopStep(s, c))
  {
    LoopStepKeeps(s, c);
    LiveByInv(s);
    LiveByInv(LoopStep(s, c));
  }

  lemma TaskStepCounts(s: State, i: nat)
    requires Inv(s) && i < |s.tasks|
    ensures
      var t := TaskStep(s, i);
      Inv(t) && OneBroker(t) && (Pending(t) <==> Pending(s) || s.tasks[i] == HandleCleared)
  {
    TaskStepKeeps(s, i);
    LiveByInv(TaskStep(s, i));
  }

  /** The fields the two tasks share, changed in place by their atomic sections. */
  class Supervisor {
    var point: LoopPoint
    var brokerStarted: bool
    var brokerExited: bool
    var brokerTaskHandle: Handle
    var brokerRestarts: nat
    var brokerStartDelay: nat
    var brokerStartAt: Reading
    var tasks: seq<TaskPhase>

    /** The true time, the one that the start delay counts from, and the exits in a row. */
    ghost var trueNow: nat
    ghost var startAt: nat
    ghost var quick: nat

    ghost function View(): State
      reads this
    {
      State(point, brokerStarted, brokerExited, brokerTaskHandle, brokerRestarts, brokerStartDelay, tasks, trueNow,
            startAt, quick)
    }

    /** What every interleaving keeps. */
    ghost predicate Valid()
      reads this
    {
      Inv(View()) && Clocked()
    }

    /** The stored time is the reading of the true one. */
    ghost predicate Clocked()
      reads this
    {
      brokerStartAt == Shown(startAt)
    }

    constructor (now: Reading)
      ensures Valid() && View() == Initial(now)
    {
      point, brokerStarted, brokerExited, brokerTaskHandle := ReadFlag, false, false, -1;
      brokerRestarts, brokerStartDelay, brokerStartAt, tasks := 0, SHORT_DELAY, now, [];
      trueNow, startAt, quick := now, now, 0;
    }

    method Supervise(created: bool, connected: bool, now: Reading, ghost elapsed: nat)
      requires Valid() && now == Shown(trueNow + elapsed)
      modifies this
      ensures View() == LoopStep(old(View()), Chance(elapsed, created, connected))
      ensures Valid() && OneBroker(View()) && Advances(old(View()), View())
    {
      ghost var before, c := View(), Chance(elapsed, created, connected);
      ghost var next := LoopStep(before, c);
      LoopStepAdvances(before, c);
      trueNow := trueNow + elapsed;
      assert View() == before.(now := before.now + elapsed);
      RunSection(created, connected, now, c);
      assert View() == next;
    }

    method RunSection(created: bool, connected: bool, now: Reading, ghost c: Chance)
      requires Clocked() && now == Shown(trueNow) && c.created == created && c.connected == connected
      modifies `point, `brokerStarted, `brokerExited, `brokerTaskHandle, `brokerRestarts, `brokerStartDelay,
               `brokerStartAt, `tasks, `startAt, `quick
      ensures Clocked() && View() == Section(old(View()), c)
    {
      match point {
        case ReadFlag => point := if brokerExited then ClearFlag else Decide;
        case ClearFlag =>
          brokerExited := false;
          point := Record;
        case Record => RecordExit(now);
        case Decide => DecideStart(now, c);
        case Create => CreateTask(created, now);
        case NoteStart =>
          brokerStarted := true;
          point := Observe;
        case Observe =>
          if brokerStarted && connected { brokerStartDelay, quick := SHORT_DELAY, 0; }
          point := ReadFlag;
      }
    }

    method DecideStart(now: Reading, ghost c: Chance)
      requires Clocked() && now == Shown(trueNow) && point == Decide
      modifies `point
      ensures View() == Section(old(View()), c)
    {
      point := Observe;
      if !brokerStarted && Elapsed(now, brokerStartAt) > brokerStartDelay {
        point := if brokerTaskHandle == -1 then Create else NoteStart;
      }
    }

    method CreateTask(created: bool, now: Reading)
      requires Clocked() && now == Shown(trueNow)
      modifies `brokerTaskHandle, `tasks, `brokerStartAt, `startAt, `point
      ensures View() == if created then old(View()).(tasks := old(tasks) + [Inside], handle := |old(tasks)|, point := NoteStart)
                        else old(View()).(handle := -1, point := ReadFlag, startAt := trueNow)
      ensures Clocked()
    {
      if created {
        brokerTaskHandle := |tasks|;
        tasks := tasks + [Inside];
        point := NoteStart;
      } else {
        brokerTaskHandle := -1;
        brokerStartAt, startAt := now, trueNow;
        point := ReadFlag;
      }
    }

    method RecordExit(now: Reading)
      requires now == Shown(trueNow)
      modifies `brokerStarted, `brokerRestarts, `brokerStartDelay, `brokerStartAt, `startAt, `quick, `point
      ensures View() == old(View()).(started := false, restarts := old(brokerRestarts) + 1, point := ReadFlag,
                                     delay := Min(old(brokerStartDelay) * 2, LONG_DELAY), startAt := trueNow,
                                     quick := old(quick) + 1)
      ensures Clocked()
    {
      brokerStarted := false;
      brokerRestarts := brokerRestarts + 1;
      brokerStartDelay := if brokerStartDelay * 2 < LONG_DELAY then brokerStartDelay * 2 else LONG_DELAY;
      brokerStartAt, startAt := now, trueNow;
      quick := quick + 1;
      point := ReadFlag;
    }

    /** The next section of a task; its announcement is what makes an exit pending. */
    method RunTask(i: nat)
      requires Valid() && i < |tasks|
      modifies `tasks, `brokerTaskHandle, `brokerExited
      ensures Valid() && OneBroker(View())
      ensures Pending(View()) <==> old(Pending(View())) || old(tasks[i]) == HandleCleared
      ensures View() == TaskStep(old(View()), i)
    {
      ghost var next := TaskStep(View(), i);
      TaskStepCounts(View(), i);
      match tasks[i] {
        case Inside => tasks := tasks[i := Returned];
        case Returned =>
          brokerTaskHandle := -1;
          tasks := tasks[i := HandleCleared];
        case HandleCleared =>
          brokerExited := true;
          tasks := tasks[i := Announced];
        case Announced =>
      }
      assert View() == next;
    }
  }
}
