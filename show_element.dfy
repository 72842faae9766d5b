/** The show element's state machine (showcontrol4j-element ShowElement.java).

    A delivered message is handled by `HandleMessage`: it waits, in pauses of
    100 ms, until the clock reaches the message's start time, cancels the
    task in the single `runningFuture` slot and submits a new task for the
    message. The executor's worker thread is modelled by `Step`, one hook call
    of one task at a time; deliveries and worker steps are sequential calls on
    one object. The three abstract hooks (`showSequence`, `idleLoop`,
    `shutdownProcedure`) are recorded as events in `trace`.

    Cancellation is cooperative: `cancel(true)` only interrupts the task's
    thread, and the task stops only if a hook then throws InterruptedException
    (a task cancelled before it starts never runs). The model assumes every
    hook does so once its thread is interrupted, so a cancelled task makes no
    further hook call; a hook that ignored the interrupt would keep a
    cancelled idle loop calling `idleLoop`. The terminal instruction is SHUTDOWN; the `Instruction.STOP`
    that line 85 tests is read as SHUTDOWN (see module Instructions). */
module Elements {
  import opened Wrappers
  import opened Instructions
  import opened Messages

  /** What one `pause()` sleeps, in milliseconds. */
  const PAUSE_MILLIS: nat := 100

  /** A submitted MessageTask, numbered in order of submission. */
  type TaskId = nat

  /** A call of one of the abstract hooks, by the task that made it. */
  datatype Event =
    | ShowSequence(task: TaskId)
    | IdleLoop(task: TaskId)
    | ShutdownProcedure(task: TaskId)

  /** Where a submitted MessageTask stands. */
  datatype Phase =
    | Submitted  // queued: analyzeMessage has not run yet
    | Idling     // inside runIdleLoop's `while (true) idleLoop()`
    | Finished   // run() has returned

  datatype Task = Task(message: Message, phase: Phase)

  /** How many pauses the wait loop makes before it stops: the least `p` with
      `now + 100 * p >= startTime`, i.e. ceil((startTime - now) / 100), and
      none at all when the start time has already come. */
  function PausesNeeded(now: int, startTime: int): (p: nat)
    ensures now + PAUSE_MILLIS * p >= startTime
    ensures p > 0 ==> now + PAUSE_MILLIS * (p - 1) < startTime
    ensures startTime <= now ==> p == 0
  {
    if startTime <= now then 0 else (startTime - now + PAUSE_MILLIS - 1) / PAUSE_MILLIS
  }

  /** The two bounds of `PausesNeeded` determine it. */
  lemma PausesNeededUnique(now: int, startTime: int, p: nat)
    requires now + PAUSE_MILLIS * p >= startTime
    requires p > 0 ==> now + PAUSE_MILLIS * (p - 1) < startTime
    ensures p == PausesNeeded(now, startTime)
  {
  }

  /** The task is about to run `runStop`. */
  predicate Stops(t: Task) {
    t.phase == Submitted && t.message.instruction == Some(SHUTDOWN)
  }

  /** One step of an uncancelled task: `analyzeMessage` dispatching on the
      instruction, or one more turn of the idle loop. GO runs the show
      sequence and falls into the idle loop; IDLE enters the idle loop;
      SHUTDOWN runs the shutdown procedure and ends; a message with no
      instruction matches no branch and ends without a hook call. */
  function Advance(id: TaskId, t: Task): (Task, seq<Event>) {
    match t.phase
    case Finished => (t, [])
    case Idling => (t, [IdleLoop(id)])
    case Submitted =>
      match t.message.instruction
      case Some(SHUTDOWN) => (t.(phase := Finished), [ShutdownProcedure(id)])
      case Some(GO) => (t.(phase := Idling), [ShowSequence(id)])
      case Some(IDLE) => (t.(phase := Idling), [IdleLoop(id)])
      case None => (t.(phase := Finished), [])
  }

  /** `n` uncancelled steps of a task: where it ends up and the hooks it calls. */
  function Run(id: TaskId, t: Task, n: nat): (Task, seq<Event>) {
    if n == 0 then (t, [])
    else
      var before := Run(id, t, n - 1);
      var step := Advance(id, before.0);
      (step.0, before.1 + step.1)
  }

  function Repeat(e: Event, n: nat): (s: seq<Event>)
    ensures |s| == n && forall i :: 0 <= i < n ==> s[i] == e
  {
    seq(n, i => e)
  }

  /** Once in the idle loop, a task calls `idleLoop` at every step and never
      leaves the loop on its own. */
  lemma {:induction false} IdlingRepeats(id: TaskId, t: Task, n: nat)
    requires t.phase == Idling
    ensures Run(id, t, n) == (t, Repeat(IdleLoop(id), n))
  {
    if n > 0 {
      IdlingRepeats(id, t, n - 1);
      assert Advance(id, t) == (t, [IdleLoop(id)]);
      assert Repeat(IdleLoop(id), n - 1) + [IdleLoop(id)] == Repeat(IdleLoop(id), n);
    }
  }

  /** A finished task calls no hook. */
  lemma {:induction false} FinishedIsSilent(id: TaskId, t: Task, n: nat)
    requires t.phase == Finished
    ensures Run(id, t, n) == (t, [])
  {
    if n > 0 {
      FinishedIsSilent(id, t, n - 1);
      assert Advance(id, t) == (t, []);
      var none: seq<Event> := [];
      assert none + none == none;
    }
  }

  /** The first step of a run, then the rest. */
  lemma {:induction false} RunFirstStep(id: TaskId, t: Task, n: nat)
    ensures Run(id, t, n + 1) ==
      (Run(id, Advance(id, t).0, n).0, Advance(id, t).1 + Run(id, Advance(id, t).0, n).1)
  {
    var first := Advance(id, t);
    if n == 0 {
      assert Run(id, t, 1) == (first.0, [] + first.1);
      assert [] + first.1 == first.1 + [];
    } else {
      RunFirstStep(id, t, n - 1);
      var before := Run(id, first.0, n - 1);
      var last := Advance(id, before.0);
      assert Run(id, t, n) == (before.0, first.1 + before.1);
      assert Run(id, first.0, n) == (last.0, before.1 + last.1);
      assert Run(id, t, n + 1) == (last.0, first.1 + before.1 + last.1);
      assert first.1 + before.1 + last.1 == first.1 + (before.1 + last.1);
    }
  }

  /** GO runs the show sequence once, then idles with no further message. */
  lemma GoShowsThenIdles(id: TaskId, m: Message, n: nat)
    requires m.instruction == Some(GO)
    ensures Run(id, Task(m, Submitted), n + 1) ==
      (Task(m, Idling), [ShowSequence(id)] + Repeat(IdleLoop(id), n))
  {
    RunFirstStep(id, Task(m, Submitted), n);
    IdlingRepeats(id, Task(m, Idling), n);
  }

  /** IDLE calls `idleLoop` at every step, for as long as the task is not
      cancelled. */
  lemma IdleRepeatsForever(id: TaskId, m: Message, n: nat)
    requires m.instruction == Some(IDLE)
    ensures Run(id, Task(m, Submitted), n + 1) == (Task(m, Idling), Repeat(IdleLoop(id), n + 1))
  {
    RunFirstStep(id, Task(m, Submitted), n);
    IdlingRepeats(id, Task(m, Idling), n);
    assert [IdleLoop(id)] + Repeat(IdleLoop(id), n) == Repeat(IdleLoop(id), n + 1);
  }

  /** SHUTDOWN calls `shutdownProcedure` exactly once, however long the task
      is left to run. */
  lemma ShutdownRunsOnce(id: TaskId, m: Message, n: nat)
    requires m.instruction == Some(SHUTDOWN)
    ensures Run(id, Task(m, Submitted), n + 1) == (Task(m, Finished), [ShutdownProcedure(id)])
  {
    RunFirstStep(id, Task(m, Submitted), n);
    FinishedIsSilent(id, Task(m, Finished), n);
    assert [ShutdownProcedure(id)] + [] == [ShutdownProcedure(id)];
  }

  /** A message whose instruction matches no branch calls no hook. */
  lemma NoInstructionNoHook(id: TaskId, m: Message, n: nat)
    requires m.instruction == None
    ensures Run(id, Task(m, Submitted), n + 1) == (Task(m, Finished), [])
  {
    RunFirstStep(id, Task(m, Submitted), n);
    FinishedIsSilent(id, Task(m, Finished), n);
    var none: seq<Event> := [];
      assert none + none == none;
  }

  class ShowElement {
    /** `System.currentTimeMillis()` */
    var clock: int
    /** Every task ever submitted to the executor. */
    var tasks: map<TaskId, Task>
    /** `runningFuture` */
    var running: Option<TaskId>
    /** Tasks whose future was cancelled, or that `shutdownNow` interrupted. */
    var cancelled: set<TaskId>
    /** `executor.shutdownNow()` has been called. */
    var executorShutdown: bool
    /** The hook calls made so far, in order. */
    var trace: seq<Event>
    /** The number the next submitted task gets. */
    var nextTask: TaskId

    /** The central invariant: a live task that is not cancelled is the one
        in the slot, so at most one task is live and uncancelled. */
    ghost predicate Valid()
      reads this
    {
      && (forall id :: id in tasks ==> id < nextTask)
      && cancelled <= tasks.Keys
      && (running.Some? ==> running.value in tasks)
      && (forall id :: id in tasks && tasks[id].phase != Finished && id !in cancelled ==> running == Some(id))
      && (executorShutdown ==> running == None)
    }

    /** The tasks that are live and not cancelled. */
    ghost function LiveTasks(): (live: set<TaskId>)
      reads this
      requires Valid()
      ensures running.None? ==> live == {}
      ensures running.Some? ==> live <= {running.value}
      ensures |live| <= 1
    {
      var live := set id | id in tasks && tasks[id].phase != Finished && id !in cancelled;
      assert running.Some? ==> live <= {running.value};
      assert live == {} || (running.Some? && live == {running.value});
      live
    }

    constructor(now: int)
      ensures Valid() && clock == now
      ensures tasks == map[] && running == None && cancelled == {}
      ensures !executorShutdown && trace == [] && nextTask == 0
    {
      clock := now;
      tasks := map[];
      running := None;
      cancelled := {};
      executorShutdown := false;
      trace := [];
      nextTask := 0;
    }

    /** `pause()`: sleeps a tenth of a second. */
    method Pause()
      modifies this`clock
      ensures clock == old(clock) + PAUSE_MILLIS
    {
      clock := clock + PAUSE_MILLIS;
    }

    /** `handleMessage(message)`: waits until the start time, then replaces
        the task in the slot by a task for the message. No hook runs on the
        delivering thread. */
    method HandleMessage(m: Message) returns (pauses: nat, accepted: bool)
      requires Valid()
      modifies this
      ensures Valid()
      ensures pauses == PausesNeeded(old(clock), m.startTime)
      ensures clock == old(clock) + PAUSE_MILLIS * pauses && clock >= m.startTime
      ensures trace == old(trace) && executorShutdown == old(executorShutdown)
      ensures cancelled == old(cancelled) + (if old(running).Some? then {old(running).value} else {})
      ensures accepted == !old(executorShutdown)
      ensures accepted ==>
        && tasks == old(tasks)[old(nextTask) := Task(m, Submitted)]
        && running == Some(old(nextTask)) && nextTask == old(nextTask) + 1
        && LiveTasks() == {old(nextTask)}
      ensures !accepted ==> tasks == old(tasks) && running == old(running) && nextTask == old(nextTask)
    {
      pauses := WaitUntil(m.startTime);
      accepted := Replace(m);
    }

    /** The wait loop: pauses until the clock reaches `startTime`. An
        interrupted pause is logged and the loop goes on. */
    method WaitUntil(startTime: int) returns (pauses: nat)
      modifies this`clock
      ensures pauses == PausesNeeded(old(clock), startTime)
      ensures clock == old(clock) + PAUSE_MILLIS * pauses && clock >= startTime
    {
      pauses := 0;
      while startTime > clock
        invariant clock == old(clock) + PAUSE_MILLIS * pauses
        invariant pauses > 0 ==> clock - PAUSE_MILLIS < startTime
        decreases startTime - clock
      {
        Pause();
        pauses := pauses + 1;
      }
      PausesNeededUnique(old(clock), startTime, pauses);
    }

    /** Cancels the task in the slot, then submits a task for `m` and puts it
        in the slot. Once the executor has been shut down, `submit` throws and
        nothing is submitted. */
    method Replace(m: Message) returns (accepted: bool)
      requires Valid()
      modifies this`cancelled, this`tasks, this`nextTask, this`running
      ensures Valid()
      ensures cancelled == old(cancelled) + (if old(running).Some? then {old(running).value} else {})
      ensures accepted == !executorShutdown
      ensures accepted ==>
        && tasks == old(tasks)[old(nextTask) := Task(m, Submitted)]
        && running == Some(old(nextTask)) && nextTask == old(nextTask) + 1
        && LiveTasks() == {old(nextTask)}
      ensures !accepted ==> tasks == old(tasks) && running == old(running) && nextTask == old(nextTask)
    {
      if running.Some? {
        cancelled := cancelled + {running.value};
      }
      if executorShutdown {
        accepted := false;
      } else {
        var id := nextTask;
        tasks := tasks[id := Task(m, Submitted)];
        nextTask := nextTask + 1;
        running := Some(id);
        accepted := true;
        assert LiveTasks() == {id};
      }
    }

    /** The worker thread of task `id` makes one step. A cancelled task ends
        without calling a hook: its interrupted hook throws InterruptedException,
        which `runShowLoop` and `runIdleLoop` catch before returning. Otherwise the step is `Advance`; for SHUTDOWN
        it is `runStop`, which also empties the slot and shuts the executor
        down, interrupting every task. */
    method Step(id: TaskId)
      requires Valid() && id in tasks
      modifies this
      ensures Valid()
      ensures clock == old(clock) && nextTask == old(nextTask) && tasks.Keys == old(tasks).Keys
      ensures id in old(cancelled) ==>
        && tasks == old(tasks)[id := old(tasks[id]).(phase := Finished)]
        && trace == old(trace) && running == old(running)
        && cancelled == old(cancelled) && executorShutdown == old(executorShutdown)
      ensures id !in old(cancelled) ==>
        && tasks == old(tasks)[id := Advance(id, old(tasks[id])).0]
        && trace == old(trace) + Advance(id, old(tasks[id])).1
      ensures id !in old(cancelled) && Stops(old(tasks[id])) ==>
        running == None && executorShutdown && cancelled == old(cancelled) + old(tasks).Keys
      ensures id !in old(cancelled) && !Stops(old(tasks[id])) ==>
        && running == old(running) && executorShutdown == old(executorShutdown)
        && cancelled == old(cancelled)
      ensures old(executorShutdown) ==> trace == old(trace)
    {
      var t := tasks[id];
      if id in cancelled {
        tasks := tasks[id := t.(phase := Finished)];
      } else {
        var (next, events) := Advance(id, t);
        if Stops(t) {
          running := None;
          cancelled := cancelled + tasks.Keys;
          executorShutdown := true;
        }
        tasks := tasks[id := next];
        trace := trace + events;
      }
    }

    /** The worker thread of task `id` makes `steps` steps with no delivery in
        between: an uncancelled task calls exactly the hooks of `Run`, a
        cancelled one none. */
    method RunWorker(id: TaskId, steps: nat)
      requires Valid() && id in tasks
      modifies this
      ensures Valid() && id in tasks
      ensures clock == old(clock) && nextTask == old(nextTask)
      ensures tasks == old(tasks)[id := tasks[id]] && tasks[id].message == old(tasks[id]).message
      ensures id in old(cancelled) ==> trace == old(trace)
      ensures id in old(cancelled) && steps > 0 ==> tasks[id] == old(tasks[id]).(phase := Finished)
      ensures id !in old(cancelled) ==>
        tasks[id] == Run(id, old(tasks[id]), steps).0 && trace == old(trace) + Run(id, old(tasks[id]), steps).1
      ensures id !in old(cancelled) && Stops(old(tasks[id])) && steps > 0 ==>
        executorShutdown && running == None && cancelled == old(cancelled) + old(tasks).Keys
      ensures !(id !in old(cancelled) && Stops(old(tasks[id])) && steps > 0) ==>
        cancelled == old(cancelled) && running == old(running) && executorShutdown == old(executorShutdown)
    {
      var i := 0;
      while i < steps
        invariant 0 <= i <= steps
        invariant Valid() && id in tasks && old(cancelled) <= cancelled
        invariant clock == old(clock) && nextTask == old(nextTask)
        invariant tasks == old(tasks)[id := tasks[id]] && tasks[id].message == old(tasks[id]).message
        invariant i > 0 ==> tasks[id].phase != Submitted
        invariant id !in old(cancelled) && Stops(old(tasks[id])) && i > 0 ==>
          executorShutdown && running == None && cancelled == old(cancelled) + old(tasks).Keys
        invariant !(id !in old(cancelled) && Stops(old(tasks[id])) && i > 0) ==>
          cancelled == old(cancelled) && running == old(running) && executorShutdown == old(executorShutdown)
        invariant id in old(cancelled) ==> trace == old(trace)
        invariant id in old(cancelled) && i > 0 ==> tasks[id] == old(tasks[id]).(phase := Finished)
        invariant id !in old(cancelled) ==>
          tasks[id] == Run(id, old(tasks[id]), i).0 && trace == old(trace) + Run(id, old(tasks[id]), i).1
        invariant id !in old(cancelled) && id in cancelled ==> tasks[id].phase == Finished
      {
        Step(id);
        i := i + 1;
      }
    }

    /** Once the executor is shut down the element is terminated: no message
        is accepted and no task calls a hook. */
    lemma ShutdownIsAbsorbing()
      requires Valid() && executorShutdown
      ensures LiveTasks() == {}
      ensures forall id :: id in tasks ==> id in cancelled || tasks[id].phase == Finished
    {
    }
  }

  /** A GO message built with no start time runs the show sequence and then
      the idle loop, with no further message. */
  method GoMessageScenario(now: int) returns (events: seq<Event>)
    ensures events == [ShowSequence(0), IdleLoop(0)]
  {
    var element := new ShowElement(now);
    var go := NewBuilder().WithInstruction(Some(GO)).Build();
    var pauses, accepted := element.HandleMessage(go);
    element.RunWorker(0, 2);
    GoShowsThenIdles(0, go, 1);
    events := element.trace;
  }

  /** Two successive GO messages run the show sequence twice; the first
      task, interrupted by the second delivery, calls no hook after it, as
      long as its idle hook throws InterruptedException once interrupted. */
  method TwoGoMessagesScenario(now: int) returns (events: seq<Event>)
    ensures events == [ShowSequence(0), IdleLoop(0), ShowSequence(1), IdleLoop(1)]
  {
    var element := new ShowElement(now);
    var go := NewBuilder().WithInstruction(Some(GO)).Build();
    var pauses, accepted := element.HandleMessage(go);
    element.RunWorker(0, 2);
    GoShowsThenIdles(0, go, 1);
    pauses, accepted := element.HandleMessage(go);
    element.RunWorker(0, 3);
    assert element.tasks[0].phase == Finished;
    element.RunWorker(1, 2);
    GoShowsThenIdles(1, go, 1);
    events := element.trace;
  }

  /** A GO message five seconds ahead is submitted only after fifty pauses,
      when the clock has reached its start time. */
  method DelayedGoScenario(now: int, startTime: Long) returns (pauses: nat, submittedAt: int, events: seq<Event>)
    requires startTime == now + 5000
    ensures pauses == 50 && submittedAt == startTime
    ensures events == [ShowSequence(0)]
  {
    var element := new ShowElement(now);
    var accepted;
    pauses, accepted := element.HandleMessage(Message(Some(GO), startTime));
    submittedAt := element.clock;
    element.RunWorker(0, 1);
    events := element.trace;
  }

  /** IDLE calls the idle hook again and again. */
  method IdleMessageScenario(now: int) returns (events: seq<Event>)
    ensures events == [IdleLoop(0), IdleLoop(0), IdleLoop(0)]
  {
    var element := new ShowElement(now);
    var idle := NewBuilder().WithInstruction(Some(IDLE)).Build();
    var pauses, accepted := element.HandleMessage(idle);
    element.RunWorker(0, 3);
    IdleRepeatsForever(0, idle, 2);
    events := element.trace;
  }

  /** SHUTDOWN while a show runs cancels it, calls the shutdown procedure
      once, and leaves the element accepting no further message. */
  method ShutdownMessageScenario(now: int) returns (events: seq<Event>, acceptedAfter: bool)
    ensures events == [ShowSequence(0), ShutdownProcedure(1)]
    ensures !acceptedAfter
  {
    var element := new ShowElement(now);
    var go := NewBuilder().WithInstruction(Some(GO)).Build();
    var shutdown := NewBuilder().WithInstruction(Some(SHUTDOWN)).Build();
    var pauses, accepted := element.HandleMessage(go);
    element.Step(0);
    assert element.trace == [ShowSequence(0)] && !element.executorShutdown;
    pauses, accepted := element.HandleMessage(shutdown);
    assert 0 in element.cancelled && 1 !in element.cancelled;
    assert element.tasks[1] == Task(shutdown, Submitted);
    element.RunWorker(1, 2);
    ShutdownRunsOnce(1, shutdown, 1);
    assert element.trace == [ShowSequence(0), ShutdownProcedure(1)];
    assert element.executorShutdown && element.cancelled == {0, 1};
    pauses, acceptedAfter := element.HandleMessage(go);
    element.RunWorker(0, 2);
    events := element.trace;
  }
}
